/** The queue object itself. Each method is one stretch of the source's code that runs under the
    mutex, and is proved to take exactly the corresponding step of SyncQueueSpec. */
module SyncQueueMonitor {
  import opened Threads
  import Spec = SyncQueueSpec
  import SyncQueueTheorems

  /** A 32-bit int compared with a size_t is converted to 64 bits first. */
  function AsSize(n: int): nat
    requires -0x8000_0000 <= n < 0x8000_0000
  {
    if n >= 0 then n else 0x1_0000_0000_0000_0000 + n
  }

  /** One sleeper has been woken, or there was none. */
  predicate WokeOne(before: CondVar, after: CondVar, wake: Option<Tid>) {
    match wake
    case None => before.sleeping == {} && after == before
    case Some(u) =>
      u in before.sleeping && after.sleeping == before.sleeping - {u} && after.woken == before.woken + {u}
  }

  /** Every sleeper has been woken. */
  predicate WokeAll(before: CondVar, after: CondVar) {
    after.sleeping == {} && after.woken == before.woken + before.sleeping
  }

  /** Thread t, back from its wait or here for the first time, has gone to sleep. */
  predicate WentToSleep(before: CondVar, after: CondVar, t: Tid) {
    after.sleeping == before.sleeping + {t} && after.woken == before.woken - {t}
  }

  class SyncQueue<T> {
    const m_maxSize: int
    var m_queue: seq<T>
    var m_needStop: bool
    var m_notEmpty: CondVar
    var m_notFull: CondVar

    ghost var calls: map<Tid, Spec.Call<T>>
    ghost var entering: set<Tid>
    ghost var toNotFull: set<Tid>
    ghost var toNotEmpty: set<Tid>
    ghost var accepted: seq<T>
    ghost var delivered: seq<T>

    ghost predicate Sized()
      reads this
    {
      -0x8000_0000 <= m_maxSize < 0x8000_0000
    }

    ghost function S(): Spec.State<T>
      reads this
      requires Sized()
    {
      Spec.State(AsSize(m_maxSize), m_queue, m_needStop, calls, entering, m_notFull, m_notEmpty,
                 toNotFull, toNotEmpty, accepted, delivered)
    }

    constructor (maxSize: int)
      requires -0x8000_0000 <= maxSize < 0x8000_0000
      ensures Sized() && m_maxSize == maxSize
      ensures S() == Spec.Init(AsSize(maxSize))
      ensures m_queue == [] && !m_needStop
    {
      m_maxSize, m_needStop, m_queue := maxSize, false, [];
      m_notFull, m_notEmpty := QUIET, QUIET;
      calls, entering, toNotFull, toNotEmpty := map[], {}, {}, {};
      accepted, delivered := [], [];
    }

    /** A thread calls in and heads for the mutex. */
    ghost method Begin(t: Tid, c: Spec.Call<T>)
      requires Sized() && Spec.Enabled(S(), Spec.Begin(t, c))
      modifies this
      ensures Sized() && S() == Spec.Apply(old(S()), Spec.Begin(t, c))
    {
      calls, entering := calls[t := c], entering + {t};
    }

    predicate NotFull()
      reads this
      requires Sized()
      ensures NotFull() == SyncQueueTheorems.NotFull(S())
    {
      !(|m_queue| >= AsSize(m_maxSize))
    }

    predicate NotEmpty()
      reads this
    {
      m_queue != []
    }

    /** Thread t gets the mutex, for the first time or back from a wait. */
    method Lock(t: Tid)
      requires Sized()
      modifies this
      ensures Sized() && S() == Spec.Locked(old(S()), t)
    {
      m_notFull, m_notEmpty := m_notFull.Leave(t), m_notEmpty.Leave(t);
      entering := entering - {t};
    }

    /** One turn of Put with the mutex. */
    method Add(t: Tid, x: T) returns (returned: bool, wake: Option<Tid>)
      requires Sized() && Spec.Placed(S()) && t in calls && calls[t] == Spec.Put(x) && t in Spec.Runnable(S())
      modifies this
      ensures Sized() && Spec.Enabled(old(S()), Spec.Section(t, wake))
      ensures S() == Spec.Apply(old(S()), Spec.Section(t, wake))
      ensures returned <==> t !in calls
      ensures returned <==> m_needStop || |old(m_queue)| < AsSize(m_maxSize)
      ensures m_needStop == old(m_needStop)
      ensures if returned && !m_needStop
              then m_queue == old(m_queue) + [x] && accepted == old(accepted) + [x]
                   && WokeOne(old(m_notEmpty), m_notEmpty, wake)
              else m_queue == old(m_queue) && accepted == old(accepted) && m_notEmpty == old(m_notEmpty)
      ensures !returned ==> WentToSleep(old(m_notFull), m_notFull, t)
    {
      SyncQueueTheorems.OnlyHere(S(), t);
      hide Spec.Placed;
      Lock(t);
      wake := None;
      if !m_needStop && !NotFull() {
        m_notFull := m_notFull.Sleep(t);
        return false, None;
      }
      if !m_needStop {
        m_queue, accepted := m_queue + [x], accepted + [x];
        wake := ChooseSleeper(m_notEmpty);
        m_notEmpty := m_notEmpty.NotifyOne(wake);
      }
      calls := calls - {t};
      returned := true;
    }

    /** One turn of the batch Take. The caller's list is overwritten only when `list` is given. */
    method TakeList(t: Tid) returns (returned: bool, list: Option<seq<T>>, wake: Option<Tid>)
      requires Sized() && Spec.Placed(S()) && t in calls && calls[t].TakeAll? && t in Spec.Runnable(S())
      modifies this
      ensures Sized() && Spec.Enabled(old(S()), Spec.Section(t, wake))
      ensures S() == Spec.Apply(old(S()), Spec.Section(t, wake))
      ensures returned <==> t !in calls
      ensures list.Some? <==> returned && !m_needStop
      ensures returned <==> m_needStop || old(m_queue) != []
      ensures m_needStop == old(m_needStop)
      ensures if list.Some?
              then list.value == old(m_queue) && m_queue == [] && WokeOne(old(m_notFull), m_notFull, wake)
              else m_queue == old(m_queue) && m_notFull == old(m_notFull)
      ensures !returned ==> WentToSleep(old(m_notEmpty), m_notEmpty, t)
    {
      SyncQueueTheorems.OnlyHere(S(), t);
      hide Spec.Placed;
      Lock(t);
      wake, list := None, None;
      if !m_needStop && !NotEmpty() {
        m_notEmpty := m_notEmpty.Sleep(t);
        return false, None, None;
      }
      if !m_needStop {
        list := Some(m_queue);
        m_queue, delivered := [], delivered + m_queue;
        wake := ChooseSleeper(m_notFull);
        m_notFull := m_notFull.NotifyOne(wake);
      }
      calls := calls - {t};
      returned := true;
    }

    /** One turn of the single Take. The caller's variable is overwritten only when `item` is given. */
    method TakeFront(t: Tid) returns (returned: bool, item: Option<T>, wake: Option<Tid>)
      requires Sized() && Spec.Placed(S()) && t in calls && calls[t].TakeOne? && t in Spec.Runnable(S())
      modifies this
      ensures Sized() && Spec.Enabled(old(S()), Spec.Section(t, wake))
      ensures S() == Spec.Apply(old(S()), Spec.Section(t, wake))
      ensures returned <==> t !in calls
      ensures item.Some? <==> returned && !m_needStop
      ensures returned <==> m_needStop || old(m_queue) != []
      ensures m_needStop == old(m_needStop)
      ensures if item.Some?
              then old(m_queue) == [item.value] + m_queue && WokeOne(old(m_notFull), m_notFull, wake)
              else m_queue == old(m_queue) && m_notFull == old(m_notFull)
      ensures !returned ==> WentToSleep(old(m_notEmpty), m_notEmpty, t)
    {
      SyncQueueTheorems.OnlyHere(S(), t);
      hide Spec.Placed;
      Lock(t);
      wake, item := None, None;
      if !m_needStop && !NotEmpty() {
        m_notEmpty := m_notEmpty.Sleep(t);
        return false, None, None;
      }
      if !m_needStop {
        item := Some(m_queue[0]);
        m_queue, delivered := m_queue[1..], delivered + [m_queue[0]];
        wake := ChooseSleeper(m_notFull);
        m_notFull := m_notFull.NotifyOne(wake);
      }
      calls := calls - {t};
      returned := true;
    }

    /** The part of Stop that runs under the mutex. */
    method StopSetFlag(t: Tid)
      requires Sized() && t in calls && calls[t].Stop? && t in Spec.Runnable(S())
      modifies this
      ensures Sized() && Spec.Enabled(old(S()), Spec.Section(t, None))
      ensures S() == Spec.Apply(old(S()), Spec.Section(t, None))
      ensures m_needStop && m_queue == old(m_queue) && t in toNotFull && t in calls
    {
      Lock(t);
      m_needStop, toNotFull := true, toNotFull + {t};
    }

    /** The first notification of Stop, sent without the mutex. */
    method StopNotifyNotFull(t: Tid)
      requires Sized() && t in toNotFull
      modifies this
      ensures Sized() && S() == Spec.Apply(old(S()), Spec.NotifyNotFull(t))
      ensures WokeAll(old(m_notFull), m_notFull) && m_notEmpty == old(m_notEmpty) && t in toNotEmpty
    {
      m_notFull := m_notFull.WakeAll();
      toNotFull, toNotEmpty := toNotFull - {t}, toNotEmpty + {t};
    }

    /** The second notification of Stop, after which the call returns. */
    method StopNotifyNotEmpty(t: Tid)
      requires Sized() && t in toNotEmpty
      modifies this
      ensures Sized() && S() == Spec.Apply(old(S()), Spec.NotifyNotEmpty(t))
      ensures WokeAll(old(m_notEmpty), m_notEmpty) && m_notFull == old(m_notFull) && t !in calls
    {
      m_notEmpty := m_notEmpty.WakeAll();
      toNotEmpty, calls := toNotEmpty - {t}, calls - {t};
    }

    /** A waiting thread wakes for no reason. */
    method WakeSpuriously(t: Tid)
      requires Sized() && Spec.Enabled(S(), Spec.Spurious(t))
      modifies this
      ensures Sized() && S() == Spec.Apply(old(S()), Spec.Spurious(t))
    {
      if t in m_notFull.sleeping {
        m_notFull := m_notFull.Wake(t);
      } else {
        m_notEmpty := m_notEmpty.Wake(t);
      }
    }

    method Empty() returns (r: bool)
      ensures r <==> m_queue == []
    {
      r := |m_queue| == 0;
    }

    /** The source compares sizes for equality here; by the bound it agrees with NotFull. */
    method Full() returns (r: bool)
      requires Sized() && Spec.InOrder(S())
      ensures r <==> !NotFull()
    {
      r := |m_queue| == AsSize(m_maxSize);
    }

    method Size() returns (n: nat)
      requires Sized() && Spec.InOrder(S())
      ensures n == |accepted| - |delivered|
    {
      n := |m_queue|;
    }
  }
}
