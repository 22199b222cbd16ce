/** The unbounded queue of addresses whose push signals only after giving the mutex up. A step is one
    stretch of code under the mutex, or the signal or broadcast sent without it, or a time-out or a
    spurious wake-up of a waiting thread. */
module ConditionQueueSpec {
  import opened Threads

  /** An address; zero is the null pointer. */
  type Ptr = nat

  const WORD := 0x1_0000_0000

  /** How an element left the queue: popped by a client or handed over by a cleaning. */
  datatype Removal = Removal(p: Ptr, popped: bool)

  datatype State = State(
    queue: seq<Ptr>,
    used: nat,               // m_used, a 32-bit unsigned word
    waitNum: nat,            // wait_thread_num, a 32-bit unsigned word
    cond: CondVar,
    plain: set<Tid>,         // threads inside pthread_cond_wait
    timed: set<Tid>,         // threads inside pthread_cond_timedwait
    expired: set<Tid>,       // timed out, heading for the mutex
    signals: set<Tid>,       // pushers that have yet to send their signal
    pushed: seq<Ptr>,        // history: everything ever pushed
    removed: seq<Removal>,   // history: everything that has left
    pushes: nat,             // history since the last cleaning
    increases: nat,
    drops: nat,              // those that found something to decrease
    resleeps: nat,           // history: wait_pop went back to sleep
    freshPops: nat)          // history: wait_pop popped without sleeping

  datatype Event =
    | Push(t: Tid, p: Ptr)
    | Signal(t: Tid, wake: Option<Tid>)
    | TryPop
    | WaitPop(t: Tid)
    | TimedPop(t: Tid)
    | Resume(t: Tid)
    | TimeOut(t: Tid)
    | Expire(t: Tid)
    | Spurious(t: Tid)
    | Increase
    | Decrease
    | Broadcast
    | Clean

  const INIT := State([], 0, 0, QUIET, {}, {}, {}, {}, [], [], 0, 0, 0, 0, 0)

  predicate Idle(s: State, t: Tid) {
    t !in s.plain && t !in s.timed && t !in s.signals
  }

  predicate Enabled(s: State, e: Event) {
    match e
    case Push(t, _) => Idle(s, t)
    case Signal(t, wake) => t in s.signals && s.cond.MayWake(wake)
    case WaitPop(t) => Idle(s, t)
    case TimedPop(t) => Idle(s, t)
    case Resume(t) => t in s.cond.woken
    case TimeOut(t) => t in s.cond.sleeping && t in s.timed
    case Expire(t) => t in s.expired
    case Spurious(t) => t in s.cond.sleeping
    case _ => true
  }

  /** The head moves into the in-use count. */
  function Pop(s: State): State
    requires s.queue != []
  {
    s.(queue := s.queue[1..], used := (s.used + 1) % WORD, removed := s.removed + [Removal(s.queue[0], true)])
  }

  function Sleep(s: State, t: Tid): State {
    s.(cond := s.cond.Sleep(t))
  }

  function Leave(s: State, t: Tid): State {
    s.(plain := s.plain - {t}, timed := s.timed - {t})
  }

  function CountDown(s: State): State {
    s.(waitNum := (s.waitNum - 1) % WORD)
  }

  function CountUp(s: State): State {
    s.(waitNum := (s.waitNum + 1) % WORD)
  }

  function Released(queue: seq<Ptr>): seq<Removal> {
    seq(|queue|, i requires 0 <= i < |queue| => Removal(queue[i], false))
  }

  function Apply(s: State, e: Event): State
    requires Enabled(s, e)
  {
    match e
    case Push(t, p) =>
      s.(queue := s.queue + [p], signals := s.signals + {t}, pushed := s.pushed + [p], pushes := s.pushes + 1)
    case Signal(t, wake) => s.(signals := s.signals - {t}, cond := s.cond.NotifyOne(wake))
    case TryPop => if s.queue == [] then s else Pop(s)
    case WaitPop(t) =>
      if s.queue == [] then Sleep(CountUp(s.(plain := s.plain + {t})), t)
      else Pop(CountDown(s.(freshPops := s.freshPops + 1)))
    case TimedPop(t) =>
      if s.queue == [] then Sleep(s.(timed := s.timed + {t}), t) else Pop(s)
    case Resume(t) =>
      var h := s.(cond := s.cond.Leave(t));
      if t in s.plain then
        if s.queue == [] then Sleep(CountUp(h.(resleeps := h.resleeps + 1)), t)
        else Leave(Pop(CountDown(h)), t)
      else if s.queue == [] then Sleep(h, t)
      else Leave(Pop(h), t)
    case TimeOut(t) => s.(cond := s.cond.Leave(t), expired := s.expired + {t})
    case Expire(t) => Leave(s.(expired := s.expired - {t}), t)
    case Spurious(t) => s.(cond := s.cond.Wake(t))
    case Increase => s.(used := (s.used + 1) % WORD, increases := s.increases + 1)
    case Decrease => if s.used > 0 then s.(used := s.used - 1, drops := s.drops + 1) else s
    case Broadcast => s.(cond := s.cond.WakeAll())
    case Clean =>
      s.(queue := [], used := 0, removed := s.removed + Released(s.queue),
         pushes := 0, increases := 0, drops := 0)
  }

  /** What size() returns: a 64-bit sum cut to 32 bits. */
  function Size(s: State): nat {
    (s.used + |s.queue|) % WORD
  }

  predicate Admissible(s: State, es: seq<Event>)
    decreases |es|
  {
    es == [] || (Enabled(s, es[0]) && Admissible(Apply(s, es[0]), es[1..]))
  }

  function Run(s: State, es: seq<Event>): State
    requires Admissible(s, es)
    decreases |es|
  {
    if es == [] then s else Run(Apply(s, es[0]), es[1..])
  }
}
