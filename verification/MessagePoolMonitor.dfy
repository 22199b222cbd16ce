/** The message pool object. Its functions can be interrupted at every statement, so each method here
    runs one thread through its next one, and is proved to take exactly the step of MessagePoolSpec.
    The loop that frees what is left over runs alone and is proved on its own. */
module MessagePoolMonitor {
  import opened Threads
  import Spec = MessagePoolSpec
  import MessagePoolTheorems

  class MessagePool {
    var threadid: seq<Tid>
    var queue_b: seq<Spec.Msg>
    var cur_queue_size: int
    var shutdown: bool
    var queue_lock: Option<Tid>      // the owner of the mutex
    var queue_ready: CondVar
    var workers: map<Tid, Spec.Worker>
    var adders: map<Tid, Spec.Adder>
    var destroy: Spec.Destroy
    var dequeued: nat                // the position of the front message among all those queued

    ghost var broken: bool
    ghost var added: seq<Spec.Msg>
    ghost var log: seq<Spec.Entry>
    ghost var fates: map<nat, Spec.Fate>

    ghost function S(): Spec.State
      reads this
    {
      Spec.State(threadid, queue_b, cur_queue_size, shutdown, queue_lock, queue_ready, workers, adders,
                 destroy, broken, added, dequeued, log, fates)
    }

    /** The pool after start: every thread is about to lock the mutex for the first time. */
    constructor (threads: seq<Tid>)
      ensures S() == Spec.Init(threads)
    {
      threadid, queue_b, cur_queue_size, shutdown := threads, [], 0, false;
      queue_lock, queue_ready := None, QUIET;
      workers, adders, destroy := map w | w in threads :: Spec.AtLock, map[], Spec.NotCalled;
      broken, added, dequeued, log, fates := false, [], 0, [], map[];
    }

    /** The next statement of worker w in lines 94-102: it locks, tests, waits, or gets the mutex back. */
    method WaitForMessage(w: Tid)
      requires Spec.Enabled(S(), Spec.Turn(w))
      requires workers[w].AtLock? || workers[w].AtWaitTest? || workers[w].AboutToWait? || workers[w].Waiting?
      modifies this`queue_lock, this`queue_ready, this`workers
      ensures S() == Spec.WorkerTurn(old(S()), w)
      ensures old(workers[w]).AtLock? ==> queue_lock == Some(w) && workers[w] == Spec.AtWaitTest
      ensures old(workers[w]).AtWaitTest? ==>
                workers[w] == if cur_queue_size == 0 && !shutdown then Spec.AboutToWait else Spec.AtShutdownTest
      ensures old(workers[w]).AboutToWait? ==>
                queue_lock == None && workers[w] == Spec.Waiting && w in queue_ready.sleeping
      ensures old(workers[w]).Waiting? ==>
                queue_lock == Some(w) && workers[w] == Spec.AtWaitTest && w !in queue_ready.woken
    {
      var pc := workers[w];
      match pc {
        case AtLock =>
          queue_lock, pc := Some(w), Spec.AtWaitTest;
        case AtWaitTest =>
          pc := if cur_queue_size == 0 && !shutdown then Spec.AboutToWait else Spec.AtShutdownTest;
        case AboutToWait =>
          queue_lock, queue_ready, pc := None, queue_ready.Sleep(w), Spec.Waiting;
        case Waiting =>
          queue_lock, queue_ready, pc := Some(w), queue_ready.Leave(w), Spec.AtWaitTest;
      }
      workers := workers[w := pc];
    }

    /** The next one in lines 104-119: it tests the flag, and leaves; or the counter, and counts down. */
    method LeaveOrCount(w: Tid)
      requires Spec.Enabled(S(), Spec.Turn(w)) && (workers[w].AtShutdownTest? || workers[w].AtSizeTest?)
      modifies this`queue_lock, this`cur_queue_size, this`workers
      ensures S() == Spec.WorkerTurn(old(S()), w)
      ensures old(workers[w]).AtShutdownTest? ==>
                if shutdown then queue_lock == None && workers[w] == Spec.Exited
                else queue_lock == old(queue_lock) && workers[w] == Spec.AtSizeTest
      ensures old(workers[w]).AtSizeTest? ==>
                queue_lock == old(queue_lock) &&
                if old(cur_queue_size) > 0 then cur_queue_size == old(cur_queue_size) - 1 && workers[w] == Spec.AtPop
                else cur_queue_size == old(cur_queue_size) && workers[w] == Spec.AtLock
    {
      var pc := workers[w];
      match pc {
        case AtShutdownTest =>
          if shutdown {
            queue_lock, pc := None, Spec.Exited;
          } else {
            pc := Spec.AtSizeTest;
          }
        case AtSizeTest =>
          if cur_queue_size > 0 {
            cur_queue_size, pc := cur_queue_size - 1, Spec.AtPop;
          } else {
            pc := Spec.AtLock;
          }
      }
      workers := workers[w := pc];
    }

    /** The next one in lines 121-124: it takes the front message, and unlocks. */
    method TakeMessage(w: Tid)
      requires Spec.Counted(S()) && Spec.Enabled(S(), Spec.Turn(w)) && (workers[w].AtPop? || workers[w].AtUnlock?)
      modifies this`queue_lock, this`queue_b, this`dequeued, this`fates, this`workers
      ensures S() == Spec.WorkerTurn(old(S()), w)
      ensures old(workers[w]).AtPop? ==>
                |old(queue_b)| > 0 && queue_b == old(queue_b)[1..] && workers[w] == Spec.AtUnlock(old(dequeued))
      ensures old(workers[w]).AtUnlock? ==> queue_lock == None && workers[w] == Spec.AtProcess(old(workers[w]).k)
    {
      if workers[w].AtPop? {
        MessagePoolTheorems.PopFinds(S(), w);
      }
      hide Spec.Counted;
      var pc := workers[w];
      match pc {
        case AtPop =>
          queue_b, pc := queue_b[1..], Spec.AtUnlock(dequeued);
          fates, dequeued := fates[dequeued := Spec.InHands(w)], dequeued + 1;
        case AtUnlock(k) =>
          queue_lock, pc := None, Spec.AtProcess(k);
      }
      workers := workers[w := pc];
    }

    /** The next one in lines 125-129: it calls the message's function, comes back, and frees the message. */
    method HandleMessage(w: Tid)
      requires Spec.Enabled(S(), Spec.Turn(w))
      requires workers[w].AtProcess? || workers[w].InProcess? || workers[w].AtDelete?
      modifies this`workers, this`log, this`fates
      ensures S() == Spec.WorkerTurn(old(S()), w)
      ensures var (pc, k) := (old(workers[w]), old(workers[w]).k);
              if pc.AtProcess? then log == old(log) + [Spec.Started(k)] && workers[w] == Spec.InProcess(k)
              else if pc.InProcess? then log == old(log) + [Spec.Returned(k)] && workers[w] == Spec.AtDelete(k)
              else log == old(log) + [Spec.Freed(k)] && workers[w] == Spec.AtLock
    {
      var pc := workers[w];
      match pc {
        case AtProcess(k) =>
          log, pc := log + [Spec.Started(k)], Spec.InProcess(k);
        case InProcess(k) =>
          log, pc := log + [Spec.Returned(k)], Spec.AtDelete(k);
        case AtDelete(k) =>
          log, fates, pc := log + [Spec.Freed(k)], fates[k := Spec.Done], Spec.AtLock;
      }
      workers := workers[w := pc];
    }

    /** Lines 49-51: the message is made. */
    method NewMessage(t: Tid, m: Spec.Msg)
      requires Spec.Enabled(S(), Spec.AddBegins(t, m))
      modifies this
      ensures S() == Spec.Apply(old(S()), Spec.AddBegins(t, m))
      ensures adders == old(adders)[t := Spec.Locking(m)]
    {
      adders := adders[t := Spec.Locking(m)];
    }

    /** The next statement of pool_add_worker in thread t, under the mutex. */
    method PoolAddWorker(t: Tid)
      requires t in adders && !adders[t].Signalling? && (adders[t].Locking? ==> queue_lock == None)
      modifies this`queue_lock, this`queue_b, this`cur_queue_size, this`adders, this`added
      ensures Spec.Enabled(old(S()), Spec.AddTurn(t, None))
      ensures S() == Spec.AdderTurn(old(S()), t, None)
      ensures old(adders[t]).Locking? ==> queue_lock == Some(t) && adders[t] == Spec.Pushing(old(adders[t]).m)
      ensures old(adders[t]).Pushing? ==> queue_b == old(queue_b) + [old(adders[t]).m] && adders[t] == Spec.Counting
      ensures old(adders[t]).Counting? ==>
                cur_queue_size == old(cur_queue_size) + 1 && adders[t] == Spec.Unlocking
      ensures old(adders[t]).Unlocking? ==> queue_lock == None && adders[t] == Spec.Signalling
    {
      match adders[t] {
        case Locking(m) =>
          queue_lock, adders := Some(t), adders[t := Spec.Pushing(m)];
        case Pushing(m) =>
          queue_b, adders := queue_b + [m], adders[t := Spec.Counting];
          added := added + [m];
        case Counting =>
          cur_queue_size, adders := cur_queue_size + 1, adders[t := Spec.Unlocking];
        case Unlocking =>
          queue_lock, adders := None, adders[t := Spec.Signalling];
      }
    }

    /** Its signal, sent without the mutex. */
    method SignalReady(t: Tid) returns (wake: Option<Tid>)
      requires t in adders && adders[t].Signalling?
      modifies this`queue_ready, this`adders
      ensures Spec.Enabled(old(S()), Spec.AddTurn(t, wake))
      ensures S() == Spec.AdderTurn(old(S()), t, wake)
      ensures t !in adders
      ensures if wake.Some? then wake.value in old(queue_ready.sleeping)
                                 && queue_ready.sleeping == old(queue_ready.sleeping) - {wake.value}
                                 && queue_ready.woken == old(queue_ready.woken) + {wake.value}
              else old(queue_ready.sleeping) == {} && queue_ready == old(queue_ready)
    {
      wake := ChooseSleeper(queue_ready);
      queue_ready, adders := queue_ready.NotifyOne(wake), adders - {t};
    }

    /** Line 63: a call that finds the flag up is turned away and changes nothing. One that finds it down goes
        on; `destroy` follows the first such caller. */
    method TestShutdown() returns (code: int)
      modifies this`destroy
      ensures code == if old(shutdown) then -1 else 0
      ensures code == 0 && old(destroy).NotCalled? ==>
                Spec.Enabled(old(S()), Spec.DestroyTurn) && S() == Spec.Apply(old(S()), Spec.DestroyTurn)
      ensures code == -1 || !old(destroy).NotCalled? ==> S() == old(S())
    {
      if shutdown {
        return -1;
      }
      if destroy.NotCalled? {
        destroy := Spec.Raising;
      }
      code := 0;
    }

    /** The next statement of pool_destory, lines 64-71. */
    method PoolDestory()
      requires !destroy.NotCalled? && Spec.Enabled(S(), Spec.DestroyTurn)
      modifies this
      ensures S() == Spec.Apply(old(S()), Spec.DestroyTurn)
      ensures old(destroy).Raising? ==> shutdown && destroy == Spec.FirstBroadcast
      ensures old(destroy).FirstBroadcast? || (old(destroy).LoopBroadcast? && old(destroy).i < |threadid|) ==>
                queue_ready.sleeping == {}
                && queue_ready.woken == old(queue_ready.woken) + old(queue_ready.sleeping)
      ensures old(destroy).FirstBroadcast? ==> destroy == Spec.LoopBroadcast(0)
      ensures old(destroy).LoopBroadcast? ==>
                destroy == if old(destroy).i < |threadid| then Spec.Joining(old(destroy).i) else Spec.Joined
      ensures old(destroy).Joining? ==>
                workers[threadid[old(destroy).i]].Exited? && destroy == Spec.LoopBroadcast(old(destroy).i + 1)
    {
      match destroy {
        case Raising =>
          shutdown, destroy := true, Spec.FirstBroadcast;
        case FirstBroadcast =>
          queue_ready, destroy := queue_ready.WakeAll(), Spec.LoopBroadcast(0);
        case LoopBroadcast(i) =>
          if i < |threadid| {
            queue_ready, destroy := queue_ready.WakeAll(), Spec.Joining(i);
          } else {
            destroy := Spec.Joined;
          }
        case Joining(i) =>
          destroy := Spec.LoopBroadcast(i + 1);
      }
    }

    /** Lines 75-78: the bound of the loop shrinks while its counter grows, so it frees only the first
        half of the messages, rounded up, from the front and in order. */
    method FreeMessages() returns (freed: seq<Spec.Msg>)
      modifies this`queue_b
      ensures |freed| == (|old(queue_b)| + 1) / 2
      ensures freed + queue_b == old(queue_b)
      ensures queue_b == [] <==> |old(queue_b)| <= 1
    {
      freed := [];
      var i := 0;
      while i < |queue_b|
        invariant i == |freed| && freed + queue_b == old(queue_b)
        invariant i <= |queue_b| + 1
        decreases |queue_b|
      {
        freed, queue_b := freed + [queue_b[0]], queue_b[1..];
        i := i + 1;
      }
    }

    /** The form the loop was meant to have frees them all. */
    method DrainMessages() returns (freed: seq<Spec.Msg>)
      modifies this`queue_b
      ensures freed == old(queue_b) && queue_b == []
    {
      freed := [];
      while queue_b != []
        invariant freed + queue_b == old(queue_b)
        decreases |queue_b|
      {
        freed, queue_b := freed + [queue_b[0]], queue_b[1..];
      }
    }
  }
}
