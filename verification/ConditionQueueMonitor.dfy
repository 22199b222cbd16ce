/** The condition queue object. Each method is one stretch of the source's code, proved to take exactly
    the corresponding step of ConditionQueueSpec. */
module ConditionQueueMonitor {
  import opened Threads
  import opened Spec = ConditionQueueSpec
  import ConditionQueueTheorems
  import SyncQueueMonitor

  /** The elements that a cleaning hands to delete, or to the release handler. */
  function NonNull(queue: seq<Ptr>): seq<Ptr> {
    if queue == [] then []
    else (if queue[0] != 0 then [queue[0]] else []) + NonNull(queue[1..])
  }

  lemma {:induction false} NonNullStep(released: seq<Ptr>, queue: seq<Ptr>)
    requires queue != []
    ensures released + NonNull(queue)
         == (if queue[0] != 0 then released + [queue[0]] else released) + NonNull(queue[1..])
  {
  }

  lemma {:induction false} ReleasedStep(before: seq<Removal>, was: seq<Ptr>, n: nat)
    requires n < |was|
    ensures before + Released(was)[..n + 1] == before + Released(was)[..n] + [Removal(was[n], false)]
  {
  }

  /** They are the elements that are not null, in queue order. */
  lemma {:induction false} NonNullInOrder(before: seq<Ptr>, after: seq<Ptr>, p: Ptr)
    ensures NonNull([p]) == if p == 0 then [] else [p]
    ensures NonNull([]) == [] && NonNull(before + after) == NonNull(before) + NonNull(after)
    decreases |before|
  {
    if before == [] {
      assert [] + after == after && [] + NonNull(after) == NonNull(after);
    } else {
      assert (before + after)[1..] == before[1..] + after;
      NonNullInOrder(before[1..], after, p);
    }
  }

  class ConditionQueue {
    var m_dataqueue: seq<Ptr>
    var m_used: nat
    var wait_thread_num: nat
    var m_cond: CondVar

    ghost var plain: set<Tid>
    ghost var timed: set<Tid>
    ghost var expired: set<Tid>
    ghost var signals: set<Tid>
    ghost var pushed: seq<Ptr>
    ghost var removed: seq<Removal>
    ghost var pushes: nat
    ghost var increases: nat
    ghost var drops: nat
    ghost var resleeps: nat
    ghost var freshPops: nat

    ghost function S(): State
      reads this
    {
      State(m_dataqueue, m_used, wait_thread_num, m_cond, plain, timed, expired, signals, pushed, removed,
            pushes, increases, drops, resleeps, freshPops)
    }

    constructor ()
      ensures S() == INIT
    {
      m_dataqueue, m_used, wait_thread_num, m_cond := [], 0, 0, QUIET;
      plain, timed, expired, signals, pushed, removed := {}, {}, {}, {}, [], [];
      pushes, increases, drops, resleeps, freshPops := 0, 0, 0, 0, 0;
    }

    method size() returns (nret: nat)
      ensures nret == Size(S()) == (m_used + |m_dataqueue|) % 0x1_0000_0000
      ensures ConditionQueueTheorems.Counted(S()) ==> nret == (pushes + increases - drops) % WORD
    {
      nret := (m_used + |m_dataqueue|) % WORD;
    }

    method decrease() returns (nret: nat)
      modifies this
      ensures S() == Apply(old(S()), Decrease) && nret == m_used
      ensures m_used == (if old(m_used) > 0 then old(m_used) - 1 else 0) && m_dataqueue == old(m_dataqueue)
    {
      if m_used > 0 {
        m_used, drops := m_used - 1, drops + 1;
      }
      nret := m_used;
    }

    method increase() returns (nret: nat)
      modifies this
      ensures S() == Apply(old(S()), Increase) && nret == m_used
      ensures m_used == (old(m_used) + 1) % 0x1_0000_0000 && m_dataqueue == old(m_dataqueue)
    {
      m_used, increases := (m_used + 1) % WORD, increases + 1;
      nret := m_used;
    }

    /** push up to the unlocking of the mutex. */
    method Push(t: Tid, data: Ptr)
      requires Enabled(S(), Spec.Push(t, data))
      modifies this
      ensures S() == Apply(old(S()), Spec.Push(t, data))
      ensures m_dataqueue == old(m_dataqueue) + [data] && t in signals && m_cond == old(m_cond)
    {
      m_dataqueue := m_dataqueue + [data];
      signals, pushed, pushes := signals + {t}, pushed + [data], pushes + 1;
    }

    /** The rest of push. */
    method Signal(t: Tid) returns (wake: Option<Tid>)
      requires t in signals
      modifies this
      ensures Enabled(old(S()), Spec.Signal(t, wake)) && S() == Apply(old(S()), Spec.Signal(t, wake))
      ensures SyncQueueMonitor.WokeOne(old(m_cond), m_cond, wake) && t !in signals
    {
      wake := ChooseSleeper(m_cond);
      m_cond, signals := m_cond.NotifyOne(wake), signals - {t};
    }

    /** The three lines that every pop shares: front, pop, count as in use. */
    method TakeFront() returns (ptr: Ptr)
      requires m_dataqueue != []
      modifies this`m_dataqueue, this`m_used, this`removed
      ensures ptr == old(m_dataqueue[0]) && S() == Pop(old(S()))
      ensures m_dataqueue == old(m_dataqueue)[1..] && m_used == (old(m_used) + 1) % 0x1_0000_0000
    {
      ptr := m_dataqueue[0];
      m_dataqueue, removed := m_dataqueue[1..], removed + [Removal(m_dataqueue[0], true)];
      m_used := (m_used + 1) % WORD;
    }

    method try_pop() returns (ptr: Ptr)
      modifies this
      ensures S() == Apply(old(S()), TryPop)
      ensures if old(m_dataqueue) == [] then ptr == 0 && m_dataqueue == [] && m_used == old(m_used)
              else old(m_dataqueue) == [ptr] + m_dataqueue && m_used == (old(m_used) + 1) % 0x1_0000_0000
    {
      ptr := 0;
      if m_dataqueue != [] {
        ptr := TakeFront();
      }
    }

    /** wait_pop from its call up to its first wait, or to its return. */
    method WaitPop(t: Tid) returns (returned: bool, ptr: Ptr)
      requires Enabled(S(), Spec.WaitPop(t))
      modifies this
      ensures S() == Apply(old(S()), Spec.WaitPop(t))
      ensures if returned then old(m_dataqueue) == [ptr] + m_dataqueue
                               && m_used == (old(m_used) + 1) % 0x1_0000_0000
                               && wait_thread_num == (old(wait_thread_num) - 1) % 0x1_0000_0000
              else old(m_dataqueue) == [] == m_dataqueue && m_used == old(m_used)
                   && wait_thread_num == (old(wait_thread_num) + 1) % 0x1_0000_0000
                   && t in m_cond.sleeping
    {
      if m_dataqueue == [] {
        wait_thread_num, plain := (wait_thread_num + 1) % WORD, plain + {t};
        m_cond := m_cond.Sleep(t);
        return false, 0;
      }
      wait_thread_num, freshPops := (wait_thread_num - 1) % WORD, freshPops + 1;
      ptr := TakeFront();
      returned := true;
    }

    /** wait_timeout_pop from its call up to its first wait, or to its return. */
    method TimedPop(t: Tid) returns (returned: bool, ptr: Ptr)
      requires Enabled(S(), Spec.TimedPop(t))
      modifies this
      ensures S() == Apply(old(S()), Spec.TimedPop(t))
      ensures if returned then old(m_dataqueue) == [ptr] + m_dataqueue
                               && m_used == (old(m_used) + 1) % 0x1_0000_0000
                               && wait_thread_num == old(wait_thread_num)
              else old(m_dataqueue) == [] == m_dataqueue && m_used == old(m_used)
                   && wait_thread_num == old(wait_thread_num)
                   && t in m_cond.sleeping
    {
      if m_dataqueue == [] {
        timed, m_cond := timed + {t}, m_cond.Sleep(t);
        return false, 0;
      }
      ptr := TakeFront();
      returned := true;
    }

    /** wait_pop after a wake-up, with the mutex back: it tests the queue again. */
    method ResumeWaitPop(t: Tid) returns (returned: bool, ptr: Ptr)
      requires Enabled(S(), Spec.Resume(t)) && t in plain && t !in timed
      modifies this
      ensures S() == Apply(old(S()), Spec.Resume(t))
      ensures if returned then old(m_dataqueue) == [ptr] + m_dataqueue
                               && m_used == (old(m_used) + 1) % 0x1_0000_0000
                               && wait_thread_num == (old(wait_thread_num) - 1) % 0x1_0000_0000
              else old(m_dataqueue) == [] == m_dataqueue && m_used == old(m_used)
                   && wait_thread_num == (old(wait_thread_num) + 1) % 0x1_0000_0000
                   && t in m_cond.sleeping
    {
      m_cond := m_cond.Leave(t);
      if m_dataqueue == [] {
        wait_thread_num, resleeps := (wait_thread_num + 1) % WORD, resleeps + 1;
        m_cond := m_cond.Sleep(t);
        return false, 0;
      }
      wait_thread_num, plain := (wait_thread_num - 1) % WORD, plain - {t};
      ptr := TakeFront();
      returned := true;
      assert timed - {t} == timed;
    }

    /** wait_timeout_pop after a wake-up. */
    method ResumeTimedPop(t: Tid) returns (returned: bool, ptr: Ptr)
      requires Enabled(S(), Spec.Resume(t)) && t in timed && t !in plain
      modifies this
      ensures S() == Apply(old(S()), Spec.Resume(t))
      ensures if returned then old(m_dataqueue) == [ptr] + m_dataqueue
                               && m_used == (old(m_used) + 1) % 0x1_0000_0000
                               && wait_thread_num == old(wait_thread_num)
              else old(m_dataqueue) == [] == m_dataqueue && m_used == old(m_used)
                   && wait_thread_num == old(wait_thread_num)
                   && t in m_cond.sleeping
    {
      m_cond := m_cond.Leave(t);
      if m_dataqueue == [] {
        m_cond := m_cond.Sleep(t);
        return false, 0;
      }
      timed := timed - {t};
      ptr := TakeFront();
      returned := true;
      assert plain - {t} == plain;
    }

    /** wait_timeout_pop after its time ran out: null, whatever the queue holds by now. */
    method Expire(t: Tid) returns (ptr: Ptr)
      requires Enabled(S(), Spec.Expire(t)) && t !in plain
      modifies this
      ensures S() == Apply(old(S()), Spec.Expire(t)) && ptr == 0
    {
      expired, timed := expired - {t}, timed - {t};
      ptr := 0;
      assert plain - {t} == plain;
    }

    /** The broadcast with which the cleaning with a handler starts, sent without the mutex. */
    method Broadcast()
      modifies this`m_cond
      ensures S() == Apply(old(S()), Spec.Broadcast)
      ensures SyncQueueMonitor.WokeAll(old(m_cond), m_cond)
    {
      m_cond := m_cond.WakeAll();
    }

    method Drain() returns (released: seq<Ptr>)
      modifies this`m_dataqueue, this`removed
      ensures m_dataqueue == [] && removed == old(removed) + Released(old(m_dataqueue))
      ensures released == NonNull(old(m_dataqueue))
    {
      released := [];
      ghost var was := m_dataqueue;
      ghost var n := 0;
      while m_dataqueue != []
        invariant 0 <= n <= |was| && m_dataqueue == was[n..]
        invariant removed == old(removed) + Released(was)[..n]
        invariant released + NonNull(m_dataqueue) == NonNull(was)
        decreases |m_dataqueue|
      {
        var ptr := m_dataqueue[0];
        NonNullStep(released, m_dataqueue);
        ReleasedStep(old(removed), was, n);
        m_dataqueue, removed, n := m_dataqueue[1..], removed + [Removal(ptr, false)], n + 1;
        if ptr != 0 {
          released := released + [ptr];
        }
      }
      assert n == |was| && Released(was)[..n] == Released(was) && NonNull(m_dataqueue) == [];
    }

    /** What both cleanings do under the mutex. Every element that is not null is released, once and
        in queue order. */
    method CleanQueue() returns (released: seq<Ptr>)
      modifies this
      ensures S() == Apply(old(S()), Clean) && m_dataqueue == [] && m_used == 0
      ensures released == NonNull(old(m_dataqueue))
    {
      released := Drain();
      m_used, pushes, increases, drops := 0, 0, 0, 0;
    }
  }
}
