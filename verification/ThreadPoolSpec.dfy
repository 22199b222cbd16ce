/** The worker pool on top of the queue: workers loop over m_running, single-item Take, a second
    test of m_running, and the processing function; one thread runs StopThreadGroup. No worker is paused. */
module ThreadPoolSpec {
  import opened Threads
  import Q = SyncQueueSpec
  const MAX_TASK_COUNT: nat := 99

  /** The constructor clamps the number of threads from above only. */
  function GroupSize(numThreads: int): nat {
    if numThreads > 99 then MAX_TASK_COUNT else if numThreads < 0 then 0 else numThreads
  }

  /** Where a worker is. An item in hand is named by its position among all delivered items;
      None is the default value left in place by a Take that found the queue stopped. */
  datatype Worker =
    | AtLoopTest
    | InTake
    | AtSecondTest(item: Option<nat>)
    | InTask(item: Option<nat>)
    | Exited

  /** How far StopThreadGroup has got. */
  datatype Phase =
    | Running
    | StoppingQueue(stopper: Tid)
    | Joining(joined: nat)
    | Finished

  /** One call of the processing function: what the second test saw, and whether the Take before it had
      returned after the queue's stop flag was written. */
  datatype TaskCall = TaskCall(item: Option<nat>, phase: Phase, queueStopped: bool, late: bool)

  /** The fate of a delivered item. */
  datatype Place = Held(w: Tid) | Passed(k: nat) | Dropped(w: Tid)

  datatype State<T> = State(
    queue: Q.State<T>,
    running: bool,
    group: seq<Tid>,
    workers: map<Tid, Worker>,
    phase: Phase,
    passed: seq<TaskCall>,      // history
    dropped: map<Tid, nat>,     // history: what each exiting worker threw away
    places: map<nat, Place>,    // history: where each delivered item went
    late: set<Tid>)             // history: whose last Take returned after the queue's stop flag was written

  datatype Event<T> =
    | AddData(t: Tid, x: T)           // an outside thread, or a running task, calls AddData
    | Inside(e: Q.Event<T>)           // a turn inside the queue that does not end a worker's Take
    | TakeReturns(w: Tid, wake: Option<Tid>)
    | LoopTest(w: Tid)
    | SecondTest(w: Tid)
    | TaskReturns(w: Tid)
    | StopBegins(t: Tid)
    | ClearRunning
    | Join
    | ClearGroup

  function Init<T>(group: seq<Tid>): State<T> {
    State(Q.Init(MAX_TASK_COUNT), true, group, map w | w in group :: AtLoopTest, Running, [], map[], map[], {})
  }

  /** The next turn of t's pending call is the one in which its single-item Take returns. */
  predicate EndsTake<T>(q: Q.State<T>, t: Tid) {
    t in q.calls && q.calls[t].TakeOne? && Q.Ready(q, q.calls[t])
  }

  predicate InsideAllowed<T>(s: State<T>, e: Q.Event<T>) {
    Q.Enabled(s.queue, e) &&
    match e
    case Begin(_, _) => false
    case Section(t, _) => !EndsTake(s.queue, t)
    case _ => true
  }

  predicate Enabled<T>(s: State<T>, e: Event<T>) {
    match e
    case AddData(t, x) =>
      t !in s.queue.calls && s.phase != StoppingQueue(t) && (t in s.workers ==> s.workers[t].InTask?)
    case Inside(q) => InsideAllowed(s, q)
    case TakeReturns(w, wake) =>
      w in s.workers && s.workers[w].InTake? && Q.Enabled(s.queue, Q.Section(w, wake)) && EndsTake(s.queue, w)
    case LoopTest(w) => w in s.workers && s.workers[w].AtLoopTest? && w !in s.queue.calls
    case SecondTest(w) => w in s.workers && s.workers[w].AtSecondTest?
    case TaskReturns(w) => w in s.workers && s.workers[w].InTask? && w !in s.queue.calls
    case StopBegins(t) => s.phase.Running? && t !in s.workers && t !in s.queue.calls
    case ClearRunning => s.phase.StoppingQueue? && s.phase.stopper !in s.queue.calls
    case Join =>
      && s.phase.Joining? && s.phase.joined < |s.group|
      && s.group[s.phase.joined] in s.workers && s.workers[s.group[s.phase.joined]].Exited?
    case ClearGroup => s.phase == Joining(|s.group|)
  }

  function Move<T>(s: State<T>, w: Tid, pc: Worker): State<T> {
    s.(workers := s.workers[w := pc])
  }

  function Apply<T>(s: State<T>, e: Event<T>): State<T>
    requires Enabled(s, e)
  {
    match e
    case AddData(t, x) => s.(queue := Q.Apply(s.queue, Q.Begin(t, Q.Put(x))))
    case Inside(q) => s.(queue := Q.Apply(s.queue, q))
    case TakeReturns(w, wake) =>
      var i := |s.queue.delivered|;
      var r := s.(queue := Q.Apply(s.queue, Q.Section(w, wake)));
      if s.queue.needStop then Move(r.(late := r.late + {w}), w, AtSecondTest(None))
      else Move(r.(places := r.places[i := Held(w)], late := r.late - {w}), w, AtSecondTest(Some(i)))
    case LoopTest(w) =>
      if s.running then Move(s.(queue := Q.Apply(s.queue, Q.Begin(w, Q.TakeOne))), w, InTake)
      else Move(s, w, Exited)
    case SecondTest(w) =>
      var item := s.workers[w].item;
      if s.running then
        var r := s.(passed := s.passed + [TaskCall(item, s.phase, s.queue.needStop, w in s.late)]);
        Move(if item.Some? then r.(places := r.places[item.value := Passed(|s.passed|)]) else r, w, InTask(item))
      else
        Move(if item.Some? then s.(dropped := s.dropped[w := item.value], places := s.places[item.value := Dropped(w)])
             else s, w, Exited)
    case TaskReturns(w) => Move(s, w, AtLoopTest)
    case StopBegins(t) => s.(queue := Q.Apply(s.queue, Q.Begin(t, Q.Stop)), phase := StoppingQueue(t))
    case ClearRunning => s.(running := false, phase := Joining(0))
    case Join => s.(phase := Joining(s.phase.joined + 1))
    case ClearGroup => s.(phase := Finished)
  }

  predicate Admissible<T>(s: State<T>, es: seq<Event<T>>)
    decreases |es|
  {
    es == [] || (Enabled(s, es[0]) && Admissible(Apply(s, es[0]), es[1..]))
  }

  function Run<T>(s: State<T>, es: seq<Event<T>>): State<T>
    requires Admissible(s, es)
    decreases |es|
  {
    if es == [] then s else Run(Apply(s, es[0]), es[1..])
  }

  // ------------------------------------------------------------ the invariant

  ghost predicate Distinct(group: seq<Tid>) {
    forall i, j | 0 <= i < j < |group| :: group[i] != group[j]
  }

  ghost function Members(group: seq<Tid>): set<Tid> {
    set w | w in group
  }

  /** Which calls into the queue the pool's threads have open. */
  ghost predicate Wired<T>(q: Q.State<T>, workers: map<Tid, Worker>, phase: Phase) {
    && (forall w | w in workers && workers[w].InTake? :: w in q.calls && q.calls[w].TakeOne?)
    && (forall t | t in q.calls ::
          match q.calls[t]
          case TakeOne => t in workers && workers[t].InTake?
          case TakeAll => false
          case Put(_) => t in workers ==> workers[t].InTask?
          case Stop => t !in workers && phase == StoppingQueue(t))
  }

  ghost predicate Phased<T>(s: State<T>) {
    && (s.running <==> s.phase.Running? || s.phase.StoppingQueue?)
    && (s.phase.Running? ==> !s.queue.needStop)
    && (s.phase.StoppingQueue? ==>
          && s.phase.stopper !in s.workers
          && if s.phase.stopper in s.queue.calls then s.queue.calls[s.phase.stopper].Stop? else s.queue.needStop)
    && (!s.running ==> s.queue.needStop)
    && (s.running ==> forall w | w in s.workers :: !s.workers[w].Exited?)
    && (s.phase.Joining? ==> s.phase.joined <= |s.group|)
    && (forall i | 0 <= i < |s.group| && (s.phase.Joining? ==> i < s.phase.joined)
                   && (s.phase.Joining? || s.phase.Finished?) ::
          s.group[i] in s.workers && s.workers[s.group[i]].Exited?)
  }

  /** Each of the n delivered items has one recorded place, and the places agree with what the
      workers hold, what the processing function was given and what was dropped. */
  ghost predicate Ledger(n: nat, workers: map<Tid, Worker>, passed: seq<TaskCall>, dropped: map<Tid, nat>,
                         places: map<nat, Place>) {
    && (forall i :: i in places <==> 0 <= i < n)
    && (forall w | w in workers && workers[w].AtSecondTest? && workers[w].item.Some? ::
          workers[w].item.value in places && places[workers[w].item.value] == Held(w))
    && (forall k | 0 <= k < |passed| && passed[k].item.Some? ::
          passed[k].item.value in places && places[passed[k].item.value] == Passed(k))
    && (forall w | w in dropped ::
          w in workers && workers[w].Exited? && dropped[w] in places && places[dropped[w]] == Dropped(w))
    && (forall i | i in places ::
          match places[i]
          case Held(w) => w in workers && workers[w] == AtSecondTest(Some(i))
          case Passed(k) => k < |passed| && passed[k].item == Some(i)
          case Dropped(w) => w in dropped && dropped[w] == i)
  }

  /** Where default values turn up: exactly with the Takes that returned after the stop flag. */
  ghost predicate Defaults<T>(s: State<T>) {
    && (forall w | w in s.workers && s.workers[w].AtSecondTest? :: s.workers[w].item.None? <==> w in s.late)
    && (s.late != {} ==> s.queue.needStop)
    && (forall k | 0 <= k < |s.passed| ::
          && (s.passed[k].phase.Running? || s.passed[k].phase.StoppingQueue?)
          && (s.passed[k].item.None? <==> s.passed[k].late)
          && (s.passed[k].late ==> s.passed[k].queueStopped && s.passed[k].phase.StoppingQueue?))
  }

  ghost predicate Inv<T>(s: State<T>) {
    && Q.Inv(s.queue) && Q.ProducersCovered(s.queue) && s.queue.capacity == MAX_TASK_COUNT
    && Distinct(s.group) && s.workers.Keys == Members(s.group)
    && Wired(s.queue, s.workers, s.phase)
    && Phased(s)
    && Ledger(|s.queue.delivered|, s.workers, s.passed, s.dropped, s.places)
    && Defaults(s)
  }
}
