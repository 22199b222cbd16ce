/** The pool object. Each method is one stretch of the source that other threads cannot cut in two,
    proved to take exactly the corresponding step of ThreadPoolSpec. */
module ThreadPoolMonitor {
  import opened Threads
  import opened SyncQueueMonitor
  import Q = SyncQueueSpec
  import Spec = ThreadPoolSpec

  class ThreadPool<T> {
    const m_queue: SyncQueue<T>
    var m_running: bool
    var m_threadgroup: seq<Tid>
    ghost var workers: map<Tid, Spec.Worker>   // the program counter of each thread in the group
    ghost var group: seq<Tid>                   // the threads that were started
    ghost var phase: Spec.Phase
    ghost var passed: seq<Spec.TaskCall>
    ghost var dropped: map<Tid, nat>
    ghost var places: map<nat, Spec.Place>
    ghost var late: set<Tid>

    ghost predicate Valid()
      reads this, m_queue
    {
      m_queue.Sized() && m_threadgroup == if phase.Finished? then [] else group
    }

    ghost function S(): Spec.State<T>
      reads this, m_queue
      requires Valid()
    {
      Spec.State(m_queue.S(), m_running, group, workers, phase, passed, dropped, places, late)
    }

    /** Too many threads are cut down to ninety-nine; zero or fewer start none. */
    constructor (numThreads: int)
      ensures Valid() && fresh(m_queue)
      ensures S() == Spec.Init(seq(Spec.GroupSize(numThreads), i => i))
      ensures m_running && S().queue.capacity == 99
      ensures |m_threadgroup| == if numThreads > 99 then 99 else if numThreads < 0 then 0 else numThreads
      ensures forall w | w in m_threadgroup :: w in workers && workers[w] == Spec.AtLoopTest
    {
      m_queue := new SyncQueue<T>(99);
      phase, passed, dropped, places, late := Spec.Running, [], map[], map[], {};
      m_running, m_threadgroup, group, workers := true, [], [], map[];
      new;
      Start(if numThreads > 99 then 99 else numThreads);
    }

    method Start(numThreads: int)
      requires m_threadgroup == [] && workers == map[] && numThreads <= 99
      modifies this`m_running, this`m_threadgroup, this`group, this`workers
      ensures m_running && m_threadgroup == group == seq(Spec.GroupSize(numThreads), i => i)
      ensures workers == map w | w in m_threadgroup :: Spec.AtLoopTest
    {
      m_running := true;
      var i := 0;
      while i < numThreads
        invariant 0 <= i && (numThreads >= 0 ==> i <= numThreads) && (numThreads < 0 ==> i == 0)
        invariant m_running && m_threadgroup == seq(i, k => k)
        invariant workers == map w | w in m_threadgroup :: Spec.AtLoopTest
      {
        m_threadgroup := m_threadgroup + [i];
        workers := workers[i := Spec.AtLoopTest];
        i := i + 1;
      }
      group := m_threadgroup;
    }

    /** An outside thread or a running task heads for Put. */
    method AddData(t: Tid, x: T)
      requires Valid() && Spec.Enabled(S(), Spec.AddData(t, x))
      modifies m_queue
      ensures Valid() && S() == Spec.Apply(old(S()), Spec.AddData(t, x))
      ensures m_queue.calls == old(m_queue.calls)[t := Q.Put(x)] && t in m_queue.entering
    {
      m_queue.Begin(t, Q.Put(x));
    }

    /** Line 123: the worker stays in its loop and goes for the next item, or leaves. */
    method LoopTest(w: Tid) returns (go: bool)
      requires Valid() && Spec.Enabled(S(), Spec.LoopTest(w))
      modifies this`workers, m_queue
      ensures Valid() && S() == Spec.Apply(old(S()), Spec.LoopTest(w))
      ensures go == m_running && workers == old(workers)[w := if m_running then Spec.InTake else Spec.Exited]
      ensures m_queue.calls == if m_running then old(m_queue.calls)[w := Q.TakeOne] else old(m_queue.calls)
    {
      if m_running {
        m_queue.Begin(w, Q.TakeOne);
        workers := workers[w := Spec.InTake];
      } else {
        workers := workers[w := Spec.Exited];
      }
      go := m_running;
    }

    /** Line 141: the turn in which Take returns. Without an item task_param keeps its default. */
    method TakeReturns(w: Tid) returns (task_param: Option<T>, wake: Option<Tid>)
      requires Valid() && Q.Placed(m_queue.S()) && w in workers && workers[w].InTake?
      requires w in Q.Runnable(m_queue.S()) && Spec.EndsTake(m_queue.S(), w)
      modifies this`workers, this`places, this`late, m_queue
      ensures Valid() && Spec.Enabled(old(S()), Spec.TakeReturns(w, wake))
      ensures S() == Spec.Apply(old(S()), Spec.TakeReturns(w, wake))
      ensures task_param.Some? <==> workers[w] == Spec.AtSecondTest(Some(|old(m_queue.delivered)|))
      ensures task_param.Some? <==> !old(m_queue.m_needStop)
      ensures task_param.Some? ==> old(m_queue.m_queue) == [task_param.value] + m_queue.m_queue
      ensures task_param.Some? ==> m_queue.delivered == old(m_queue.delivered) + [task_param.value]
    {
      ghost var i := |m_queue.delivered|;
      var returned;
      returned, task_param, wake := m_queue.TakeFront(w);
      late := if task_param.Some? then late - {w} else late + {w};
      if task_param.Some? {
        places := places[i := Spec.Held(w)];
      }
      workers := workers[w := Spec.AtSecondTest(if task_param.Some? then Some(i) else None)];
    }

    /** Lines 143-147: the worker leaves with what it holds, or calls the processing function on it. */
    method SecondTest(w: Tid) returns (go: bool)
      requires Valid() && Spec.Enabled(S(), Spec.SecondTest(w))
      modifies this`workers, this`places, this`passed, this`dropped
      ensures Valid() && S() == Spec.Apply(old(S()), Spec.SecondTest(w))
      ensures go == m_running
      ensures if m_running then workers == old(workers)[w := Spec.InTask(old(workers)[w].item)]
                                && |passed| == |old(passed)| + 1 && passed[|old(passed)|].item == old(workers)[w].item
              else workers == old(workers)[w := Spec.Exited] && passed == old(passed)
    {
      ghost var item := workers[w].item;
      if !m_running {
        if item.Some? {
          dropped, places := dropped[w := item.value], places[item.value := Spec.Dropped(w)];
        }
        workers := workers[w := Spec.Exited];
        return false;
      }
      if item.Some? {
        places := places[item.value := Spec.Passed(|passed|)];
      }
      passed := passed + [Spec.TaskCall(item, phase, m_queue.m_needStop, w in late)];
      workers := workers[w := Spec.InTask(item)];
      go := true;
    }

    /** The processing function returns and the loop starts over. */
    method TaskReturns(w: Tid)
      requires Valid() && Spec.Enabled(S(), Spec.TaskReturns(w))
      modifies this`workers
      ensures Valid() && S() == Spec.Apply(old(S()), Spec.TaskReturns(w))
      ensures workers == old(workers)[w := Spec.AtLoopTest]
    {
      workers := workers[w := Spec.AtLoopTest];
    }

    /** Line 160: the stopping thread calls into the queue. */
    method StopBegins(t: Tid)
      requires Valid() && Spec.Enabled(S(), Spec.StopBegins(t))
      modifies this`phase, m_queue
      ensures Valid() && S() == Spec.Apply(old(S()), Spec.StopBegins(t))
      ensures m_queue.calls == old(m_queue.calls)[t := Q.Stop] && phase == Spec.StoppingQueue(t)
    {
      m_queue.Begin(t, Q.Stop);
      phase := Spec.StoppingQueue(t);
    }

    /** Line 161. */
    method ClearRunning()
      requires Valid() && Spec.Enabled(S(), Spec.ClearRunning)
      modifies this`phase, this`m_running
      ensures Valid() && S() == Spec.Apply(old(S()), Spec.ClearRunning)
      ensures !m_running && old(phase.StoppingQueue? && phase.stopper !in m_queue.calls) && phase == Spec.Joining(0)
    {
      m_running, phase := false, Spec.Joining(0);
    }

    /** Lines 163-166: one more worker has been joined. */
    method Join()
      requires Valid() && Spec.Enabled(S(), Spec.Join)
      modifies this`phase
      ensures Valid() && S() == Spec.Apply(old(S()), Spec.Join)
      ensures old(phase.Joining?) && phase == Spec.Joining(old(phase.joined) + 1)
      ensures workers[group[old(phase.joined)]].Exited?
    {
      phase := Spec.Joining(phase.joined + 1);
    }

    /** Line 167. */
    method ClearGroup()
      requires Valid() && Spec.Enabled(S(), Spec.ClearGroup)
      modifies this`phase, this`m_threadgroup
      ensures Valid() && S() == Spec.Apply(old(S()), Spec.ClearGroup) && m_threadgroup == []
    {
      m_threadgroup, phase := [], Spec.Finished;
    }
  }
}
