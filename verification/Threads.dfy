/** Thread identities, optional values, and the waiting sets of a condition variable. */
module Threads {
  type Tid = nat

  datatype Option<+T> = None | Some(value: T)

  /** The threads blocked in a condition variable's wait: those that nobody has woken yet, and
      those that have been woken (by a notification or spuriously, section 30.5 of
      ISO/IEC 14882:2011) but have not got the mutex back. */
  datatype CondVar = CondVar(sleeping: set<Tid>, woken: set<Tid>) {

    function Sleep(t: Tid): CondVar {
      CondVar(sleeping + {t}, woken)
    }

    function Wake(t: Tid): CondVar {
      CondVar(sleeping - {t}, woken + {t})
    }

    function WakeAll(): CondVar {
      CondVar({}, woken + sleeping)
    }

    /** Thread t leaves the variable: it has the mutex back. */
    function Leave(t: Tid): CondVar {
      CondVar(sleeping - {t}, woken - {t})
    }

    /** A notification wakes one sleeper, whichever it likes, and nobody only when nobody sleeps. */
    predicate MayWake(choice: Option<Tid>) {
      match choice
      case None => sleeping == {}
      case Some(t) => t in sleeping
    }

    function NotifyOne(choice: Option<Tid>): CondVar {
      match choice
      case None => this
      case Some(t) => Wake(t)
    }
  }

  const QUIET := CondVar({}, {})

  /** The scheduler's choice of the thread a notification wakes. */
  method ChooseSleeper(c: CondVar) returns (choice: Option<Tid>)
    ensures c.MayWake(choice)
  {
    if c.sleeping == {} {
      return None;
    }
    var t :| t in c.sleeping;
    return Some(t);
  }
}
