/** The bounded blocking queue as a transition system over any number of threads. A step is what
    one thread does from the moment it holds the mutex until it gives it up, or one of the two
    notifications that Stop sends after giving it up, or a spurious wake-up. Every such stretch
    touches a condition variable at most once, so nothing is lost by taking it as one step. */
module SyncQueueSpec {
  import opened Threads

  datatype Call<T> = Put(x: T) | TakeOne | TakeAll | Stop

  datatype State<T> = State(
    capacity: nat,
    queue: seq<T>,
    needStop: bool,
    calls: map<Tid, Call<T>>,   // calls that have not returned
    entering: set<Tid>,         // first arrival at the mutex
    notFull: CondVar,
    notEmpty: CondVar,
    toNotFull: set<Tid>,        // Stop callers that have yet to notify m_notFull
    toNotEmpty: set<Tid>,       // Stop callers that have yet to notify m_notEmpty
    accepted: seq<T>,           // history: every item ever pushed
    delivered: seq<T>)          // history: every item ever taken, batches concatenated

  datatype Event<T> =
    | Begin(t: Tid, call: Call<T>)
    | Section(t: Tid, wake: Option<Tid>)
    | Spurious(t: Tid)
    | NotifyNotFull(t: Tid)
    | NotifyNotEmpty(t: Tid)

  function Init<T>(capacity: nat): State<T> {
    State(capacity, [], false, map[], {}, QUIET, QUIET, {}, {}, [], [])
  }

  function Runnable<T>(s: State<T>): set<Tid> {
    s.entering + s.notFull.woken + s.notEmpty.woken
  }

  predicate IsTake<T>(c: Call<T>) {
    c.TakeOne? || c.TakeAll?
  }

  /** The predicate that a waiting call tests under the mutex. */
  predicate Ready<T>(s: State<T>, c: Call<T>) {
    s.needStop || match c
                  case Put(_) => |s.queue| < s.capacity
                  case Stop => true
                  case _ => s.queue != []
  }

  /** The condition variable that thread t's section notifies, if any. */
  predicate MayWake<T>(s: State<T>, c: Call<T>, wake: Option<Tid>) {
    if s.needStop || !Ready(s, c) || c.Stop? then wake == None
    else if c.Put? then s.notEmpty.MayWake(wake)
    else s.notFull.MayWake(wake)
  }

  predicate Enabled<T>(s: State<T>, e: Event<T>) {
    match e
    case Begin(t, _) => t !in s.calls
    case Section(t, wake) => t in s.calls && t in Runnable(s) && MayWake(s, s.calls[t], wake)
    case Spurious(t) => t in s.notFull.sleeping + s.notEmpty.sleeping
    case NotifyNotFull(t) => t in s.toNotFull
    case NotifyNotEmpty(t) => t in s.toNotEmpty
  }

  /** Thread t has the mutex. */
  function Locked<T>(s: State<T>, t: Tid): State<T> {
    s.(entering := s.entering - {t}, notFull := s.notFull.Leave(t), notEmpty := s.notEmpty.Leave(t))
  }

  function Return<T>(s: State<T>, t: Tid): State<T> {
    s.(calls := s.calls - {t})
  }

  function Sleep<T>(s: State<T>, t: Tid, c: Call<T>): State<T> {
    if c.Put? then s.(notFull := s.notFull.Sleep(t)) else s.(notEmpty := s.notEmpty.Sleep(t))
  }

  /** The call's work on the queue, followed by its notification. */
  function Act<T>(h: State<T>, c: Call<T>, wake: Option<Tid>): State<T>
    requires Ready(h, c) && !h.needStop
  {
    match c
    case Put(x) =>
      h.(queue := h.queue + [x], accepted := h.accepted + [x], notEmpty := h.notEmpty.NotifyOne(wake))
    case TakeAll =>
      h.(queue := [], delivered := h.delivered + h.queue, notFull := h.notFull.NotifyOne(wake))
    case TakeOne =>
      h.(queue := h.queue[1..], delivered := h.delivered + [h.queue[0]],
         notFull := h.notFull.NotifyOne(wake))
    case Stop => h
  }

  /** What thread t does with the mutex: test, then sleep, give up because of the stop, or act. */
  function SectionStep<T>(s: State<T>, t: Tid, c: Call<T>, wake: Option<Tid>): State<T> {
    var h := Locked(s, t);
    match c
    case Stop => h.(needStop := true, toNotFull := h.toNotFull + {t})
    case _ =>
      if !Ready(h, c) then Sleep(h, t, c)
      else if h.needStop then Return(h, t)
      else Return(Act(h, c, wake), t)
  }

  function Apply<T>(s: State<T>, e: Event<T>): State<T>
    requires Enabled(s, e)
  {
    match e
    case Begin(t, c) => s.(calls := s.calls[t := c], entering := s.entering + {t})
    case Section(t, wake) => SectionStep(s, t, s.calls[t], wake)
    case Spurious(t) =>
      if t in s.notFull.sleeping then s.(notFull := s.notFull.Wake(t))
      else s.(notEmpty := s.notEmpty.Wake(t))
    case NotifyNotFull(t) =>
      s.(notFull := s.notFull.WakeAll(), toNotFull := s.toNotFull - {t}, toNotEmpty := s.toNotEmpty + {t})
    case NotifyNotEmpty(t) =>
      Return(s.(notEmpty := s.notEmpty.WakeAll(), toNotEmpty := s.toNotEmpty - {t}), t)
  }

  predicate Admissible<T>(s: State<T>, es: seq<Event<T>>)
    decreases |es|
  {
    es == [] || (Enabled(s, es[0]) && Admissible(Apply(s, es[0]), es[1..]))
  }

  function Run<T>(s: State<T>, es: seq<Event<T>>): State<T>
    requires Admissible(s, es)
    decreases |es|
  {
    if es == [] then s else Run(Apply(s, es[0]), es[1..])
  }

  // ------------------------------------------------------------ the invariant

  ghost predicate Waits<T>(s: State<T>, t: Tid) {
    t in s.notFull.sleeping || t in s.notFull.woken || t in s.notEmpty.sleeping || t in s.notEmpty.woken
  }

  ghost predicate Stops<T>(s: State<T>, t: Tid) {
    t in s.toNotFull || t in s.toNotEmpty
  }

  ghost predicate Somewhere<T>(s: State<T>, t: Tid) {
    t in s.entering || Waits(s, t) || Stops(s, t)
  }

  /** Every pending call other than those in `out` is in exactly one place, and only where its
      kind can be. */
  ghost predicate PlacedBut<T>(s: State<T>, out: set<Tid>) {
    && (forall t | t in s.calls && t !in out :: Somewhere(s, t))
    && (forall t | t in s.entering :: t in s.calls && t !in out && !Waits(s, t) && !Stops(s, t))
    && (forall t | t in s.notFull.sleeping :: t in s.calls && t !in out && s.calls[t].Put? && t !in s.notFull.woken)
    && (forall t | t in s.notFull.woken :: t in s.calls && t !in out && s.calls[t].Put?)
    && (forall t | t in s.notEmpty.sleeping ::
          t in s.calls && t !in out && IsTake(s.calls[t]) && t !in s.notEmpty.woken)
    && (forall t | t in s.notEmpty.woken :: t in s.calls && t !in out && IsTake(s.calls[t]))
    && (forall t | t in s.toNotFull :: t in s.calls && t !in out && s.calls[t].Stop? && t !in s.toNotEmpty)
    && (forall t | t in s.toNotEmpty :: t in s.calls && t !in out && s.calls[t].Stop?)
    && (s.toNotFull + s.toNotEmpty != {} ==> s.needStop)
  }

  ghost predicate Placed<T>(s: State<T>) {
    PlacedBut(s, {})
  }

  ghost predicate InOrder<T>(s: State<T>) {
    && s.accepted == s.delivered + s.queue
    && |s.queue| <= s.capacity
  }

  /** A sleeping consumer means that every one of the n queued items has a woken consumer coming for
      it; a sleeping producer means that the queue is not empty or a producer is coming. */
  ghost predicate Covers(capacity: nat, n: nat, notFull: CondVar, notEmpty: CondVar) {
    && (notEmpty.sleeping != {} ==> |notEmpty.woken| >= n)
    && (notFull.sleeping != {} && capacity >= 1 ==> n + |notFull.woken| >= 1)
  }

  ghost predicate NoLostWakeUp<T>(s: State<T>) {
    !s.needStop ==> Covers(s.capacity, |s.queue|, s.notFull, s.notEmpty)
  }

  /** After the stop: whoever still sleeps has a notification to all coming, and no producer sleeps
      once somebody has sent the first of the two. */
  ghost predicate StopReachesSleepers<T>(s: State<T>) {
    s.needStop ==>
      && (s.toNotEmpty != {} ==> s.notFull.sleeping == {})
      && (s.notFull.sleeping != {} ==> s.toNotFull != {})
      && (s.notEmpty.sleeping != {} ==> s.toNotFull + s.toNotEmpty != {})
  }

  ghost predicate Inv<T>(s: State<T>) {
    Placed(s) && InOrder(s) && NoLostWakeUp(s) && StopReachesSleepers(s)
  }

  /** The stronger bound on producers that holds while nobody takes a batch. */
  ghost predicate ProducersCovered<T>(s: State<T>) {
    !s.needStop && s.notFull.sleeping != {} ==> |s.queue| + |s.notFull.woken| >= s.capacity
  }

  lemma {:induction false} PlacedWake<T>(s: State<T>, out: set<Tid>, t: Tid)
    requires PlacedBut(s, out)
    ensures t in s.notFull.sleeping ==> PlacedBut(s.(notFull := s.notFull.Wake(t)), out)
    ensures t in s.notEmpty.sleeping ==> PlacedBut(s.(notEmpty := s.notEmpty.Wake(t)), out)
  {
  }

  lemma {:induction false} PlacedNotifyEmpty<T>(h: State<T>, t: Tid, wake: Option<Tid>)
    requires PlacedBut(h, {t}) && h.notEmpty.MayWake(wake)
    ensures Placed(Return(h.(notEmpty := h.notEmpty.NotifyOne(wake)), t))
  {
    if wake.Some? {
      PlacedWake(h, {t}, wake.value);
    }
  }

  lemma {:induction false} PlacedNotifyFull<T>(h: State<T>, t: Tid, wake: Option<Tid>)
    requires PlacedBut(h, {t}) && h.notFull.MayWake(wake)
    ensures Placed(Return(h.(notFull := h.notFull.NotifyOne(wake)), t))
  {
    if wake.Some? {
      PlacedWake(h, {t}, wake.value);
    }
  }

  lemma {:induction false} PlacedAct<T>(h: State<T>, t: Tid, c: Call<T>, wake: Option<Tid>)
    requires PlacedBut(h, {t}) && !c.Stop? && Ready(h, c) && !h.needStop
    requires if c.Put? then h.notEmpty.MayWake(wake) else h.notFull.MayWake(wake)
    ensures Placed(Return(Act(h, c, wake), t))
  {
    if c.Put? {
      PlacedNotifyEmpty(h, t, wake);
    } else {
      PlacedNotifyFull(h, t, wake);
    }
  }

  lemma {:induction false} PlacedStop<T>(h: State<T>, t: Tid)
    requires PlacedBut(h, {t}) && t in h.calls && h.calls[t].Stop?
    ensures Placed(h.(needStop := true, toNotFull := h.toNotFull + {t}))
  {
  }

  lemma {:induction false} PlacedSleep<T>(h: State<T>, t: Tid, c: Call<T>)
    requires PlacedBut(h, {t}) && t in h.calls && h.calls[t] == c && !c.Stop?
    ensures Placed(Sleep(h, t, c))
  {
  }

  lemma {:induction false} PlacedAfterLock<T>(h: State<T>, t: Tid, c: Call<T>, wake: Option<Tid>, r: State<T>)
    requires PlacedBut(h, {t}) && t in h.calls && h.calls[t] == c
    requires !h.needStop && Ready(h, c) ==>
               && (c.Put? ==> h.notEmpty.MayWake(wake))
               && (IsTake(c) ==> h.notFull.MayWake(wake))
    requires r == if c.Stop? then h.(needStop := true, toNotFull := h.toNotFull + {t})
                  else if !Ready(h, c) then Sleep(h, t, c)
                  else if h.needStop then Return(h, t)
                  else Return(Act(h, c, wake), t)
    ensures Placed(r)
  {
    if c.Stop? {
      PlacedStop(h, t);
    } else if !Ready(h, c) {
      PlacedSleep(h, t, c);
    } else if !h.needStop {
      PlacedAct(h, t, c, wake);
    }
  }

  lemma {:induction false} PlacedLocked<T>(s: State<T>, t: Tid)
    requires Placed(s) && t in s.calls && t in Runnable(s)
    ensures PlacedBut(Locked(s, t), {t})
  {
  }

  lemma {:induction false} PlacedSection<T>(s: State<T>, t: Tid, wake: Option<Tid>)
    requires Placed(s) && Enabled(s, Section(t, wake))
    ensures Placed(SectionStep(s, t, s.calls[t], wake))
  {
    PlacedLocked(s, t);
    PlacedAfterLock(Locked(s, t), t, s.calls[t], wake, SectionStep(s, t, s.calls[t], wake));
  }

  lemma {:induction false} PlacedStep<T>(s: State<T>, e: Event<T>)
    requires Placed(s) && Enabled(s, e)
    ensures Placed(Apply(s, e))
  {
    match e
    case Begin(t, c) =>
    case Section(t, wake) => PlacedSection(s, t, wake);
    case Spurious(t) => PlacedWake(s, {}, t);
    case NotifyNotFull(t) =>
    case NotifyNotEmpty(t) =>
  }

  lemma {:induction false} InOrderStep<T>(s: State<T>, e: Event<T>)
    requires InOrder(s) && Enabled(s, e)
    ensures InOrder(Apply(s, e))
  {
    if e.Section? && s.queue != [] {
      assert s.delivered + s.queue == (s.delivered + [s.queue[0]]) + s.queue[1..];
    }
  }

  /** A notification that leaves somebody asleep has woken somebody. */
  lemma {:induction false} NotifyCounts(c: CondVar, wake: Option<Tid>)
    requires c.sleeping !! c.woken && c.MayWake(wake)
    ensures var d := c.NotifyOne(wake);
            |c.woken| <= |d.woken| && (c.sleeping != {} ==> |d.woken| == |c.woken| + 1)
  {
  }

  lemma {:induction false} LeaveCounts(c: CondVar, t: Tid)
    requires c.sleeping !! c.woken && t !in c.sleeping
    ensures c.Leave(t).sleeping == c.sleeping
    ensures |c.Leave(t).woken| == |c.woken| - if t in c.woken then 1 else 0
  {
  }

  lemma {:induction false} WakeCounts(c: CondVar, t: Tid)
    requires c.sleeping !! c.woken && t in c.sleeping
    ensures c.Wake(t).sleeping <= c.sleeping && |c.Wake(t).woken| == |c.woken| + 1
  {
  }

  /** What the places say about a thread that is about to get the mutex. */
  ghost predicate MayRun<T>(s: State<T>, t: Tid, c: Call<T>) {
    && s.notFull.sleeping !! s.notFull.woken && s.notEmpty.sleeping !! s.notEmpty.woken
    && t !in s.notFull.sleeping && t !in s.notEmpty.sleeping
    && (t in s.notFull.woken ==> c.Put?)
    && (t in s.notEmpty.woken ==> IsTake(c))
  }

  lemma {:induction false} PlacedRunnable<T>(s: State<T>, t: Tid)
    requires Placed(s) && t in s.calls && t in Runnable(s)
    ensures MayRun(s, t, s.calls[t])
  {
  }

  lemma {:induction false} NotWaiting(c: CondVar, t: Tid)
    requires t !in c.sleeping && t !in c.woken
    ensures c.Leave(t) == c
  {
  }

  lemma {:induction false} PutCovers(capacity: nat, n: nat, notFull: CondVar, notEmpty: CondVar, t: Tid,
                                     wake: Option<Tid>)
    requires Covers(capacity, n, notFull, notEmpty)
    requires notEmpty.sleeping !! notEmpty.woken && notEmpty.MayWake(wake)
    ensures Covers(capacity, n + 1, notFull.Leave(t), notEmpty.NotifyOne(wake))
  {
    NotifyCounts(notEmpty, wake);
  }

  lemma {:induction false} PutSleepCovers(capacity: nat, n: nat, notFull: CondVar, notEmpty: CondVar, t: Tid)
    requires Covers(capacity, n, notFull, notEmpty) && n >= capacity
    ensures Covers(capacity, n, notFull.Leave(t).Sleep(t), notEmpty)
  {
  }

  lemma {:induction false} TakeCovers(capacity: nat, n: nat, m: nat, notFull: CondVar, notEmpty: CondVar, t: Tid,
                                      wake: Option<Tid>)
    requires Covers(capacity, n, notFull, notEmpty) && m < n
    requires notFull.sleeping !! notFull.woken && notFull.MayWake(wake)
    requires notEmpty.sleeping !! notEmpty.woken && t !in notEmpty.sleeping
    ensures Covers(capacity, m, notFull.NotifyOne(wake), notEmpty.Leave(t))
  {
    NotifyCounts(notFull, wake);
    LeaveCounts(notEmpty, t);
  }

  lemma {:induction false} TakeSleepCovers(capacity: nat, notFull: CondVar, notEmpty: CondVar, t: Tid)
    requires Covers(capacity, 0, notFull, notEmpty)
    ensures Covers(capacity, 0, notFull, notEmpty.Leave(t).Sleep(t))
  {
  }

  lemma {:induction false} NoLostWakeUpSection<T>(s: State<T>, t: Tid, c: Call<T>, wake: Option<Tid>)
    requires NoLostWakeUp(s) && |s.queue| <= s.capacity && MayRun(s, t, c) && MayWake(s, c, wake)
    ensures NoLostWakeUp(SectionStep(s, t, c, wake))
  {
    var n := |s.queue|;
    if s.needStop || c.Stop? {
    } else if c.Put? {
      NotWaiting(s.notEmpty, t);
      if n < s.capacity {
        PutCovers(s.capacity, n, s.notFull, s.notEmpty, t, wake);
      } else {
        PutSleepCovers(s.capacity, n, s.notFull, s.notEmpty, t);
      }
    } else {
      NotWaiting(s.notFull, t);
      if n > 0 {
        TakeCovers(s.capacity, n, if c.TakeAll? then 0 else n - 1, s.notFull, s.notEmpty, t, wake);
      } else {
        TakeSleepCovers(s.capacity, s.notFull, s.notEmpty, t);
      }
    }
  }

  lemma {:induction false} NoLostWakeUpStep<T>(s: State<T>, e: Event<T>)
    requires Inv(s) && Enabled(s, e)
    ensures NoLostWakeUp(Apply(s, e))
  {
    match e
    case Begin(t, c) =>
    case Section(t, wake) => PlacedRunnable(s, t); NoLostWakeUpSection(s, t, s.calls[t], wake);
    case Spurious(t) =>
      if t in s.notFull.sleeping { WakeCounts(s.notFull, t); } else { WakeCounts(s.notEmpty, t); }
    case NotifyNotFull(t) =>
    case NotifyNotEmpty(t) =>
  }

  lemma {:induction false} StopReachesSleepersStep<T>(s: State<T>, e: Event<T>)
    requires Inv(s) && Enabled(s, e)
    ensures StopReachesSleepers(Apply(s, e))
  {
  }

  lemma {:induction false} InvStep<T>(s: State<T>, e: Event<T>)
    requires Inv(s) && Enabled(s, e)
    ensures Inv(Apply(s, e))
  {
    PlacedStep(s, e);
    InOrderStep(s, e);
    NoLostWakeUpStep(s, e);
    StopReachesSleepersStep(s, e);
  }

  lemma {:induction false} InvRun<T>(s: State<T>, es: seq<Event<T>>)
    requires Inv(s) && Admissible(s, es)
    ensures Inv(Run(s, es))
    decreases |es|
  {
    if es == [] {
    } else {
      InvStep(s, es[0]);
      InvRun(Apply(s, es[0]), es[1..]);
    }
  }

  lemma {:induction false} RunConcat<T>(s: State<T>, es: seq<Event<T>>, fs: seq<Event<T>>)
    requires Admissible(s, es) && Admissible(Run(s, es), fs)
    ensures Admissible(s, es + fs) && Run(s, es + fs) == Run(Run(s, es), fs)
    decreases |es|
  {
    if es == [] {
      assert es + fs == fs;
    } else {
      assert (es + fs)[0] == es[0] && (es + fs)[1..] == es[1..] + fs;
      RunConcat(Apply(s, es[0]), es[1..], fs);
    }
  }
}
