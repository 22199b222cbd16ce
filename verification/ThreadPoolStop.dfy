/** What a stop of the worker pool does to single items: values nobody added that reach the processing
    function, and real items that do not. */
module ThreadPoolStop {
  import opened Threads
  import Q = SyncQueueSpec
  import opened ThreadPoolSpec
  import opened ThreadPoolTheorems

  // ------------------------------------------------------------ exactly when

  /** A value nobody added reaches the processing function only through a second test that fell between the
      write of the queue's stop flag and the clearing of m_running. These are the calls whose Take had
      returned late, that is after that write. */
  lemma {:induction false} DefaultsInWindow<T>(group: seq<Tid>, es: seq<Event<T>>)
    requires Distinct(group) && Admissible(Init<T>(group), es)
    ensures var s := Run(Init<T>(group), es);
            forall k | 0 <= k < |s.passed| ::
              && (s.passed[k].item.None? ==> s.passed[k].queueStopped && s.passed[k].phase.StoppingQueue?)
              && (s.passed[k].item.None? <==> s.passed[k].late)
  {
    InvInit<T>(group);
    InvRun(Init<T>(group), es);
  }

  /** The step hands the processing function a value nobody added. */
  predicate PassesDefault<T>(s: State<T>, e: Event<T>)
    requires Enabled(s, e)
  {
    var passed := Apply(s, e).passed;
    |passed| > |s.passed| && passed[|s.passed|].item.None?
  }

  predicate Drops<T>(s: State<T>, e: Event<T>)
    requires Enabled(s, e)
  {
    |Apply(s, e).dropped| > |s.dropped|
  }

  lemma {:induction false} OutcomeOf<T>(s: State<T>, e: Event<T>)
    requires Defaults(s) && Enabled(s, e)
    requires forall w | w in s.dropped :: w in s.workers && s.workers[w].Exited?
    ensures Drops(s, e) <==> e.SecondTest? && !s.running && e.w !in s.late
    ensures PassesDefault(s, e) <==> e.SecondTest? && s.running && e.w in s.late
  {
    hide Q.Apply, Q.Enabled;
  }

  /** Whatever happens next in a run: an item is dropped if and only if a worker comes to its second test
      after m_running was cleared, with a Take that returned before the stop flag was written; and a value
      nobody added is passed if and only if one comes there earlier, with a Take that returned later. */
  lemma {:induction false} SecondTestOutcome<T>(group: seq<Tid>, es: seq<Event<T>>, e: Event<T>)
    requires Distinct(group) && Admissible(Init<T>(group), es) && Enabled(Run(Init<T>(group), es), e)
    ensures var s := Run(Init<T>(group), es);
            && (Drops(s, e) <==> e.SecondTest? && !s.running && e.w !in s.late)
            && (PassesDefault(s, e) <==> e.SecondTest? && s.running && e.w in s.late)
  {
    InvInit<T>(group);
    InvRun(Init<T>(group), es);
    OutcomeOf(Run(Init<T>(group), es), e);
  }

  // ------------------------------------------------------------ which pools

  predicate NoDefaults<T>(s: State<T>) {
    forall k | 0 <= k < |s.passed| :: s.passed[k].item.Some?
  }

  lemma {:induction false} NobodyWorksFrom<T>(s: State<T>, es: seq<Event<T>>)
    requires s.workers == map[] && Admissible(s, es)
    ensures Run(s, es).passed == s.passed && Run(s, es).dropped == s.dropped
    decreases |es|
  {
    if es == [] {
    } else {
      assert Apply(s, es[0]).workers == map[];
      NobodyWorksFrom(Apply(s, es[0]), es[1..]);
    }
  }

  lemma {:induction false} NobodyWorks<T>(es: seq<Event<T>>)
    requires Admissible(Init<T>([]), es)
    ensures var s := Run(Init<T>([]), es); s.passed == [] && s.dropped == map[]
  {
    NobodyWorksFrom(Init<T>([]), es);
  }

  /** A thread outside the group. */
  function Beyond(group: seq<Tid>): (t: Tid)
    ensures forall w | w in group :: w < t
  {
    if group == [] then 0
    else
      var t := Beyond(group[1..]);
      assert forall w | w in group :: w == group[0] || w in group[1..];
      if group[0] < t then t else group[0] + 1
  }

  lemma {:induction false} RunCons<T>(s: State<T>, e: Event<T>, es: seq<Event<T>>)
    requires Enabled(s, e) && Admissible(Apply(s, e), es)
    ensures Admissible(s, [e] + es) && Run(s, [e] + es) == Run(Apply(s, e), es)
  {
    assert ([e] + es)[1..] == es;
  }

  lemma {:induction false} RunNone<T>(s: State<T>)
    ensures Admissible(s, []) && Run(s, []) == s
  {
  }

  /** Thread t writes the queue's stop flag. */
  lemma {:induction false} FlagWritten<T>(s: State<T>, t: Tid) returns (r: State<T>)
    requires s.phase.Running? && t !in s.workers && t !in s.queue.calls
    ensures Enabled(s, StopBegins(t))
    ensures var a := Apply(s, StopBegins(t));
            Enabled(a, Inside(Q.Section(t, None))) && r == Apply(a, Inside(Q.Section(t, None)))
    ensures r == s.(queue := r.queue, phase := StoppingQueue(t)) && r.queue.needStop
    ensures r.queue.calls == s.queue.calls[t := Q.Stop] && r.queue.entering == s.queue.entering - {t}
    ensures r.queue.accepted == s.queue.accepted && t in r.queue.toNotFull
  {
    var a := Apply(s, StopBegins(t));
    assert a.queue.calls[t] == Q.Stop;
    r := Apply(a, Inside(Q.Section(t, None)));
  }

  /** A worker inside Take when the flag is written comes out with the default value and passes it on. */
  lemma {:induction false} DefaultIsPassed<T>(s: State<T>, w: Tid) returns (es: seq<Event<T>>)
    requires s.queue.needStop && s.running && w in s.workers && s.workers[w].InTake?
    requires w in s.queue.calls && s.queue.calls[w].TakeOne? && w in s.queue.entering
    ensures Admissible(s, es) && !NoDefaults(Run(s, es)) && Run(s, es).queue.accepted == s.queue.accepted
  {
    var a := Apply(s, TakeReturns(w, None));
    var r := Apply(a, SecondTest(w));
    assert r.passed[|s.passed|].item.None?;
    RunNone(r);
    RunCons(a, SecondTest(w), []);
    RunCons(s, TakeReturns(w, None), [SecondTest(w)] + []);
    es := [TakeReturns(w, None)] + ([SecondTest(w)] + []);
  }

  /** With a worker, the function can run although nothing was ever added. */
  lemma {:induction false} DefaultReachesTask<T>(group: seq<Tid>) returns (es: seq<Event<T>>)
    requires group != []
    ensures Admissible(Init<T>(group), es)
    ensures var s := Run(Init<T>(group), es); s.queue.accepted == [] && !NoDefaults(s)
  {
    var w, t := group[0], Beyond(group);
    var s := Init<T>(group);
    var a := Apply(s, LoopTest(w));
    assert a.queue.calls == map[w := Q.TakeOne] && a.queue.entering == {w};
    var b := FlagWritten(a, t);
    es := DefaultIsPassed(b, w);
    hide Enabled, Apply, NoDefaults;
    RunCons(Apply(a, StopBegins(t)), Inside(Q.Section(t, None)), es);
    es := [Inside(Q.Section(t, None))] + es;
    RunCons(a, StopBegins(t), es);
    es := [StopBegins(t)] + es;
    RunCons(s, LoopTest(w), es);
    es := [LoopTest(w)] + es;
  }

  /** Only what was added is processed, in every run, if and only if the pool has no workers. */
  lemma {:induction false} OnlyAddedProcessedIff<T>(group: seq<Tid>)
    requires Distinct(group)
    ensures group == [] <==>
            forall es: seq<Event<T>> :: Admissible(Init<T>(group), es) ==> NoDefaults(Run(Init<T>(group), es))
  {
    if group == [] {
      forall es: seq<Event<T>> | Admissible(Init<T>(group), es) ensures NoDefaults(Run(Init<T>(group), es)) {
        NobodyWorks(es);
      }
    } else {
      var es := DefaultReachesTask<T>(group);
    }
  }

  /** Thread t adds an item. */
  lemma {:induction false} ItemAdded<T>(s: State<T>, t: Tid, x: T) returns (r: State<T>)
    requires t !in s.workers && s.phase.Running? && s.queue == Q.Init(MAX_TASK_COUNT)
    ensures Enabled(s, AddData(t, x))
    ensures var a := Apply(s, AddData(t, x));
            Enabled(a, Inside(Q.Section(t, None))) && r == Apply(a, Inside(Q.Section(t, None)))
    ensures r == s.(queue := r.queue) && r.queue.calls == map[] && r.queue.queue == [x]
    ensures !r.queue.needStop && r.queue.entering == {} && r.queue.delivered == [] && r.queue.notFull == QUIET
  {
    var a := Apply(s, AddData(t, x));
    assert a.queue.calls == map[t := Q.Put(x)];
    r := Apply(a, Inside(Q.Section(t, None)));
    assert r.queue.calls == map[];
  }

  /** Worker w takes it. */
  lemma {:induction false} ItemTaken<T>(s: State<T>, w: Tid) returns (r: State<T>)
    requires s.running && w in s.workers && s.workers[w].AtLoopTest? && s.queue.calls == map[] && s.queue.queue != []
    requires !s.queue.needStop && s.queue.delivered == [] && s.queue.notFull == QUIET
    ensures Enabled(s, LoopTest(w))
    ensures var a := Apply(s, LoopTest(w)); Enabled(a, TakeReturns(w, None)) && r == Apply(a, TakeReturns(w, None))
    ensures r.workers == s.workers[w := AtSecondTest(Some(0))]
    ensures r.phase == s.phase && r.running && r.dropped == s.dropped && r.queue.calls == map[]
  {
    var a := Apply(s, LoopTest(w));
    assert a.queue.calls == map[w := Q.TakeOne] && w in a.queue.entering;
    r := Apply(a, TakeReturns(w, None));
    assert r.queue.calls == map[];
    assert r.workers == s.workers[w := AtSecondTest(Some(0))];
  }

  lemma {:induction false} DroppedAfterFlag<T>(s: State<T>, t: Tid, w: Tid) returns (es: seq<Event<T>>)
    requires s.phase == StoppingQueue(t) && t in s.queue.toNotFull
    requires w in s.workers && s.workers[w] == AtSecondTest(Some(0))
    ensures Admissible(s, es) && Run(s, es).dropped != map[]
  {
    var a := Apply(s, Inside(Q.NotifyNotFull(t)));
    var b := Apply(a, Inside(Q.NotifyNotEmpty(t)));
    var c := Apply(b, ClearRunning);
    var d := Apply(c, SecondTest(w));
    assert w in d.dropped;
    hide Enabled, Apply;
    RunNone(d);
    RunCons(c, SecondTest(w), []);
    es := [SecondTest(w)] + [];
    RunCons(b, ClearRunning, es);
    es := [ClearRunning] + es;
    RunCons(a, Inside(Q.NotifyNotEmpty(t)), es);
    es := [Inside(Q.NotifyNotEmpty(t))] + es;
    RunCons(s, Inside(Q.NotifyNotFull(t)), es);
    es := [Inside(Q.NotifyNotFull(t))] + es;
  }

  /** The stop goes through before the worker gets to its second test. */
  lemma {:induction false} HeldIsDropped<T>(s: State<T>, t: Tid, w: Tid) returns (es: seq<Event<T>>)
    requires s.phase.Running? && s.running && t !in s.workers && s.queue.calls == map[] && s.dropped == map[]
    requires w in s.workers && s.workers[w] == AtSecondTest(Some(0))
    ensures Admissible(s, es) && Run(s, es).dropped != map[]
  {
    var a := Apply(s, StopBegins(t));
    var b := FlagWritten(s, t);
    es := DroppedAfterFlag(b, t, w);
    hide Enabled, Apply;
    RunCons(a, Inside(Q.Section(t, None)), es);
    es := [Inside(Q.Section(t, None))] + es;
    RunCons(s, StopBegins(t), es);
    es := [StopBegins(t)] + es;
  }

  /** With a worker, an item can be added, taken, and thrown away by a stop. */
  lemma {:induction false} ItemCanBeDropped<T>(group: seq<Tid>, x: T) returns (es: seq<Event<T>>)
    requires group != []
    ensures Admissible(Init<T>(group), es) && Run(Init<T>(group), es).dropped != map[]
  {
    var w, t := group[0], Beyond(group);
    var s := Init<T>(group);
    var a := ItemAdded(s, t, x);
    var b := ItemTaken(a, w);
    es := HeldIsDropped(b, t, w);
    hide Enabled, Apply;
    RunCons(Apply(a, LoopTest(w)), TakeReturns(w, None), es);
    es := [TakeReturns(w, None)] + es;
    RunCons(a, LoopTest(w), es);
    es := [LoopTest(w)] + es;
    RunCons(Apply(s, AddData(t, x)), Inside(Q.Section(t, None)), es);
    es := [Inside(Q.Section(t, None))] + es;
    RunCons(s, AddData(t, x), es);
    es := [AddData(t, x)] + es;
  }

  /** No item that a worker has taken is thrown away, in any run, if and only if the pool has no workers. */
  lemma {:induction false} NothingDroppedIff<T>(group: seq<Tid>, x: T)
    requires Distinct(group)
    ensures group == [] <==>
            forall es: seq<Event<T>> :: Admissible(Init<T>(group), es) ==> Run(Init<T>(group), es).dropped == map[]
  {
    if group == [] {
      forall es: seq<Event<T>> | Admissible(Init<T>(group), es) ensures Run(Init<T>(group), es).dropped == map[] {
        NobodyWorks(es);
      }
    } else {
      var es := ItemCanBeDropped(group, x);
    }
  }
}
