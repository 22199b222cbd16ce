/** What every run of the condition queue guarantees. */
module ConditionQueueTheorems {
  import opened Sequences
  import opened Threads
  import opened ConditionQueueSpec

  // ------------------------------------------------------------ the invariant

  ghost predicate Placed(s: State) {
    && (forall t | t in s.cond.sleeping :: t !in s.cond.woken && t !in s.expired && (t in s.plain || t in s.timed))
    && (forall t | t in s.cond.woken :: t !in s.expired && (t in s.plain || t in s.timed))
    && (forall t | t in s.expired :: t in s.timed)
    && (forall t | t in s.plain :: t !in s.timed && t !in s.signals && (t in s.cond.sleeping || t in s.cond.woken))
    && (forall t | t in s.timed :: t !in s.signals && (t in s.cond.sleeping || t in s.cond.woken || t in s.expired))
  }

  /** A thread asleep and not woken means that for each queued element a woken thread or a signal
      still to be sent is on its way. */
  ghost predicate Covered(n: nat, cond: CondVar, signals: nat) {
    cond.sleeping != {} ==> |cond.woken| + signals >= n
  }

  /** What has come in since the last cleaning, less what decrease took out. */
  ghost function Net(s: State): int {
    s.pushes + s.increases - s.drops
  }

  ghost function Waits(s: State): int {
    |s.plain| + s.resleeps - s.freshPops
  }

  ghost predicate Counted(s: State) {
    && s.used < WORD && s.waitNum < WORD
    && Size(s) == Net(s) % WORD
    && s.waitNum == Waits(s) % WORD
  }

  ghost function Addresses(removed: seq<Removal>): seq<Ptr> {
    seq(|removed|, i requires 0 <= i < |removed| => removed[i].p)
  }

  ghost predicate InOrder(s: State) {
    s.pushed == Addresses(s.removed) + s.queue
  }

  ghost predicate Inv(s: State) {
    Placed(s) && Covered(|s.queue|, s.cond, |s.signals|) && Counted(s) && InOrder(s)
  }

  lemma {:induction false} PlacedStep(s: State, e: Event)
    requires Placed(s) && Enabled(s, e)
    ensures Placed(Apply(s, e))
  {
  }

  lemma {:induction false} WokenGrows(c: CondVar, t: Tid)
    requires t !in c.woken
    ensures |c.Wake(t).woken| == |c.woken| + 1
  {
  }

  lemma {:induction false} PushCovers(n: nat, c: CondVar, signals: set<Tid>, t: Tid)
    requires Covered(n, c, |signals|) && t !in signals
    ensures Covered(n + 1, c, |signals + {t}|)
  {
  }

  lemma {:induction false} SignalCovers(n: nat, c: CondVar, signals: set<Tid>, t: Tid, wake: Option<Tid>)
    requires Covered(n, c, |signals|) && t in signals && c.MayWake(wake)
    requires c.sleeping !! c.woken
    ensures Covered(n, c.NotifyOne(wake), |signals - {t}|)
  {
    if wake.Some? {
      WokenGrows(c, wake.value);
    }
  }

  lemma {:induction false} LeaveWoken(c: CondVar, t: Tid)
    requires t in c.woken && t !in c.sleeping
    ensures |c.Leave(t).woken| == |c.woken| - 1 && c.Leave(t).sleeping == c.sleeping
    ensures |c.Leave(t).Sleep(t).sleeping| == |c.sleeping| + 1
  {
  }

  lemma {:induction false} ResumeCovers(n: nat, c: CondVar, signals: nat, t: Tid)
    requires Covered(n, c, signals) && t in c.woken && t !in c.sleeping
    ensures n > 0 ==> Covered(n - 1, c.Leave(t), signals)
    ensures n == 0 ==> Covered(0, c.Leave(t).Sleep(t), signals)
  {
    LeaveWoken(c, t);
  }

  lemma {:induction false} CoveredStep(s: State, e: Event)
    requires Placed(s) && Covered(|s.queue|, s.cond, |s.signals|) && Enabled(s, e)
    ensures var r := Apply(s, e); Covered(|r.queue|, r.cond, |r.signals|)
  {
    match e
    case Push(t, p) => PushCovers(|s.queue|, s.cond, s.signals, t);
    case Signal(t, wake) => SignalCovers(|s.queue|, s.cond, s.signals, t, wake);
    case Resume(t) => ResumeCovers(|s.queue|, s.cond, |s.signals|, t);
    case TimeOut(t) => assert s.cond.woken - {t} == s.cond.woken;
    case Spurious(t) => WokenGrows(s.cond, t);
    case _ =>
  }

  lemma {:induction false} Mod(a: int, b: int)
    ensures (a % WORD + b) % WORD == (a + b) % WORD
  {
  }

  lemma {:induction false} Wrap(w: nat, x: int)
    requires w == x % WORD
    ensures (w + 1) % WORD == (x + 1) % WORD && (w - 1) % WORD == (x - 1) % WORD
  {
    Mod(x, 1);
    Mod(x, -1);
  }

  lemma {:induction false} SizeEffect(s: State, e: Event)
    requires s.used < WORD && Enabled(s, e)
    ensures var r := Apply(s, e);
            && r.used < WORD
            && (|| (Size(r) == Size(s) && Net(r) == Net(s))
                || (Size(r) == (Size(s) + 1) % WORD && Net(r) == Net(s) + 1)
                || (Size(r) == (Size(s) - 1) % WORD && Net(r) == Net(s) - 1)
                || (Size(r) == 0 == Net(r)))
  {
    var r := Apply(s, e);
    Mod(s.used + 1, |r.queue|);
    Wrap(Size(s), s.used + |s.queue|);
  }

  /** The in-use accounting of one step: only pushes, increases and effective decreases move size(). */
  lemma {:induction false} SizeStep(s: State, e: Event)
    requires s.used < WORD && Size(s) == Net(s) % WORD && Enabled(s, e)
    ensures var r := Apply(s, e); r.used < WORD && Size(r) == Net(r) % WORD
  {
    Wrap(Size(s), Net(s));
    SizeEffect(s, e);
  }

  lemma {:induction false} ResumeEffect(s: State, t: Tid)
    requires t in s.cond.woken
    ensures var r := Apply(s, Resume(t));
            || (r.waitNum == s.waitNum && Waits(r) == Waits(s))
            || (r.waitNum == (s.waitNum + 1) % WORD && Waits(r) == Waits(s) + 1)
            || (r.waitNum == (s.waitNum - 1) % WORD && Waits(r) == Waits(s) - 1)
  {
    if t in s.plain {
      assert |s.plain - {t}| == |s.plain| - 1;
    } else {
      assert s.plain - {t} == s.plain;
    }
  }

  /** The counter and what it is meant to count move together, up to wrapping. */
  lemma {:induction false} WaitEffect(s: State, e: Event)
    requires Placed(s) && Enabled(s, e)
    ensures var r := Apply(s, e);
            || (r.waitNum == s.waitNum && Waits(r) == Waits(s))
            || (r.waitNum == (s.waitNum + 1) % WORD && Waits(r) == Waits(s) + 1)
            || (r.waitNum == (s.waitNum - 1) % WORD && Waits(r) == Waits(s) - 1)
  {
    match e
    case WaitPop(t) => assert |s.plain + {t}| == |s.plain| + 1;
    case Resume(t) => ResumeEffect(s, t);
    case Expire(t) => assert s.plain - {t} == s.plain;
    case _ =>
  }

  lemma {:induction false} WaitStep(s: State, e: Event)
    requires Placed(s) && s.waitNum == Waits(s) % WORD && Enabled(s, e)
    ensures Apply(s, e).waitNum == Waits(Apply(s, e)) % WORD
  {
    Wrap(s.waitNum, Waits(s));
    WaitEffect(s, e);
  }

  lemma {:induction false} CountedStep(s: State, e: Event)
    requires Placed(s) && Counted(s) && Enabled(s, e)
    ensures Counted(Apply(s, e))
  {
    SizeStep(s, e);
    WaitStep(s, e);
  }

  lemma {:induction false} InOrderStep(s: State, e: Event)
    requires InOrder(s) && Enabled(s, e)
    ensures InOrder(Apply(s, e))
  {
    var r := Apply(s, e);
    if e.Clean? {
      assert Addresses(r.removed) == Addresses(s.removed) + s.queue;
    } else if |r.queue| < |s.queue| {
      assert Addresses(r.removed) == Addresses(s.removed) + [s.queue[0]];
      assert [s.queue[0]] + s.queue[1..] == s.queue;
    }
  }

  lemma {:induction false} InvStep(s: State, e: Event)
    requires Inv(s) && Enabled(s, e)
    ensures Inv(Apply(s, e))
  {
    PlacedStep(s, e);
    CoveredStep(s, e);
    CountedStep(s, e);
    InOrderStep(s, e);
  }

  lemma {:induction false} InvRun(s: State, es: seq<Event>)
    requires Inv(s) && Admissible(s, es)
    ensures Inv(Run(s, es))
    decreases |es|
  {
    if es == [] {
    } else {
      InvStep(s, es[0]);
      InvRun(Apply(s, es[0]), es[1..]);
    }
  }

  // ------------------------------------------------------------ read off the events

  /** The elements of the Push events, in event order. */
  function Pushes(es: seq<Event>): seq<Ptr> {
    if es == [] then [] else (if es[0].Push? then [es[0].p] else []) + Pushes(es[1..])
  }

  /** The turn has the mutex and pops from a queue that is not empty. */
  predicate Pops(s: State, e: Event) {
    s.queue != [] && (e.TryPop? || e.WaitPop? || e.TimedPop? || e.Resume?)
  }

  /** What leaves the queue in a step: to a pop the head, to a cleaning all there is. */
  function GoneBy(s: State, e: Event): seq<Ptr> {
    if Pops(s, e) then [s.queue[0]] else if e.Clean? then s.queue else []
  }

  function Gone(s: State, es: seq<Event>): seq<Ptr>
    requires Admissible(s, es)
    decreases |es|
  {
    if es == [] then [] else GoneBy(s, es[0]) + Gone(Apply(s, es[0]), es[1..])
  }

  /** What size() is to be: one more for each Push and each Increase, one less for each Decrease that finds
      an element in use, and nothing after a cleaning. */
  function Balance(s: State, es: seq<Event>, before: int): int
    requires Admissible(s, es)
    decreases |es|
  {
    if es == [] then before
    else
      Balance(Apply(s, es[0]), es[1..],
              match es[0]
              case Push(_, _) => before + 1
              case Increase => before + 1
              case Decrease => if s.used > 0 then before - 1 else before
              case Clean => 0
              case _ => before)
  }

  /** By how much wait_size() is to exceed the threads inside wait_pop's wait: waits begun again, less pops
      of wait_pop that never waited. */
  function Drift(s: State, es: seq<Event>): int
    requires Admissible(s, es)
    decreases |es|
  {
    if es == [] then 0
    else
      var e := es[0];
      (if e.Resume? && e.t in s.plain && s.queue == [] then 1 else if e.WaitPop? && s.queue != [] then -1 else 0)
      + Drift(Apply(s, e), es[1..])
  }

  lemma {:induction false} HistoryStep(s: State, e: Event)
    requires Enabled(s, e)
    ensures var r := Apply(s, e);
            && r.pushed == s.pushed + (if e.Push? then [e.p] else [])
            && s.queue + (if e.Push? then [e.p] else []) == GoneBy(s, e) + r.queue
            && Net(r) == match e
                         case Push(_, _) => Net(s) + 1
                         case Increase => Net(s) + 1
                         case Decrease => if s.used > 0 then Net(s) - 1 else Net(s)
                         case Clean => 0
                         case _ => Net(s)
  {
  }

  lemma {:induction false} DriftStep(s: State, e: Event)
    requires Enabled(s, e)
    ensures var r := Apply(s, e);
            r.resleeps - r.freshPops == s.resleeps - s.freshPops
            + if e.Resume? && e.t in s.plain && s.queue == [] then 1
              else if e.WaitPop? && s.queue != [] then -1 else 0
  {
  }

  lemma {:induction false} FifoRun(s: State, es: seq<Event>)
    requires Admissible(s, es)
    ensures s.queue + Pushes(es) == Gone(s, es) + Run(s, es).queue
    decreases |es|
  {
    hide Apply, Enabled, GoneBy;
    if es == [] {
      assert s.queue + [] == [] + s.queue;
    } else {
      var e, a, rest := es[0], Apply(s, es[0]), es[1..];
      HistoryStep(s, e);
      FifoRun(a, rest);
      var p: seq<Ptr> := if e.Push? then [e.p] else [];
      var ps, d, ds, r := Pushes(rest), GoneBy(s, e), Gone(a, rest), Run(a, rest);
      assert Pushes(es) == p + ps && Gone(s, es) == d + ds && Run(s, es) == r;
      hide *;
      Regroup(s.queue, p, d, a.queue, ps, ds, r.queue);
    }
  }

  lemma {:induction false} PushedRun(s: State, es: seq<Event>)
    requires Admissible(s, es)
    ensures Run(s, es).pushed == s.pushed + Pushes(es)
    decreases |es|
  {
    hide Apply, Enabled, GoneBy;
    if es == [] {
      assert s.pushed + [] == s.pushed;
    } else {
      var e, rest := es[0], es[1..];
      HistoryStep(s, e);
      PushedRun(Apply(s, e), rest);
      var p: seq<Ptr> := if e.Push? then [e.p] else [];
      assert Pushes(es) == p + Pushes(rest);
      assert s.pushed + p + Pushes(rest) == s.pushed + (p + Pushes(rest));
    }
  }

  lemma {:induction false} BalanceRun(s: State, es: seq<Event>)
    requires Admissible(s, es)
    ensures Net(Run(s, es)) == Balance(s, es, Net(s))
    decreases |es|
  {
    hide Apply, Enabled, GoneBy, Net;
    if es == [] {
    } else {
      HistoryStep(s, es[0]);
      BalanceRun(Apply(s, es[0]), es[1..]);
    }
  }

  lemma {:induction false} DriftRun(s: State, es: seq<Event>)
    requires Admissible(s, es)
    ensures Run(s, es).resleeps - Run(s, es).freshPops == s.resleeps - s.freshPops + Drift(s, es)
    decreases |es|
  {
    hide Apply, Enabled;
    if es == [] {
    } else {
      DriftStep(s, es[0]);
      DriftRun(Apply(s, es[0]), es[1..]);
    }
  }

  // ------------------------------------------------------------ main results

  /** Signalling after the mutex is released loses no wake-up. */
  lemma {:induction false} NoLostSignal(es: seq<Event>)
    requires Admissible(INIT, es)
    ensures var s := Run(INIT, es);
            s.cond.sleeping != {} ==> |s.cond.woken| + |s.signals| >= |s.queue|
  {
    InvRun(INIT, es);
  }

  /** What was pushed, in the order of the pushes, is what left the queue, to pops and to cleanings, and then
      the queue: each element leaves once and in its turn. */
  lemma {:induction false} FifoOverRuns(es: seq<Event>)
    requires Admissible(INIT, es)
    ensures var s := Run(INIT, es);
            && Pushes(es) == Gone(INIT, es) + s.queue
            && s.pushed == Pushes(es)
            && |s.pushed| == |s.removed| + |s.queue|
            && (forall i | 0 <= i < |s.removed| :: s.removed[i].p == s.pushed[i])
            && s.queue == s.pushed[|s.removed|..]
  {
    InvRun(INIT, es);
    FifoRun(INIT, es);
    PushedRun(INIT, es);
    assert INIT.queue + Pushes(es) == Pushes(es) == INIT.pushed + Pushes(es);
    var s := Run(INIT, es);
    assert forall i | 0 <= i < |s.removed| :: Addresses(s.removed)[i] == s.pushed[i];
  }

  lemma {:induction false} SizeNow(s: State)
    requires Inv(s)
    ensures (s.used + |s.queue|) % 0x1_0000_0000 == Net(s) % 0x1_0000_0000
  {
  }

  lemma {:induction false} FreshInv(s: State)
    requires s.queue == [] == s.pushed && s.removed == [] && s.used == 0 == s.waitNum && s.cond == QUIET
    requires s.plain == {} == s.timed && s.expired == {} == s.signals
    requires s.pushes == 0 == s.increases && s.drops == 0 == s.resleeps && s.freshPops == 0
    ensures Inv(s) && Net(s) == 0
  {
  }

  lemma {:induction false} InvInit()
    ensures Inv(INIT) && Net(INIT) == 0
  {
    hide Inv, Net;
    FreshInv(INIT);
  }

  /** Since the last cleaning size() has gone up by one for each push and each increase, and down by one for
      each decrease that found something to decrease; pops do not show. */
  lemma {:induction false} InUseAccounting(es: seq<Event>)
    requires Admissible(INIT, es)
    ensures (Run(INIT, es).used + |Run(INIT, es).queue|) % 0x1_0000_0000 == Balance(INIT, es, 0) % 0x1_0000_0000
  {
    hide *;
    InvInit();
    InvRun(INIT, es);
    BalanceRun(INIT, es);
    SizeNow(Run(INIT, es));
  }

  /** A pop, of whichever kind, that succeeds takes exactly the head and leaves size() alone. */
  lemma {:induction false} PopKeepsSize(s: State, e: Event)
    requires s.used < WORD && Enabled(s, e)
    requires e.TryPop? || e.WaitPop? || e.TimedPop? || e.Resume?
    ensures var r := Apply(s, e);
            && Size(r) == Size(s)
            && if s.queue == [] then r.queue == [] && r.used == s.used
               else s.queue == [s.queue[0]] + r.queue && r.used == (s.used + 1) % WORD
                    && r.removed == s.removed + [Removal(s.queue[0], true)]
  {
    if s.queue != [] {
      Mod(s.used + 1, |s.queue| - 1);
    }
  }

  lemma {:induction false} WaitRun(es: seq<Event>)
    requires Admissible(INIT, es)
    ensures Run(INIT, es).waitNum == Waits(Run(INIT, es)) % WORD
  {
    InvRun(INIT, es);
  }

  lemma {:induction false} OffsetExact(w: nat, p: nat, d: int)
    requires w == (p + d) % WORD
    ensures p < WORD ==> (w == p <==> d % WORD == 0)
  {
    Mod(d, p);
  }

  lemma {:induction false} WaitSizeOf(s: State)
    requires s.waitNum == Waits(s) % WORD
    ensures |s.plain| < WORD ==> (s.waitNum == |s.plain| <==> (s.resleeps - s.freshPops) % WORD == 0)
  {
    OffsetExact(s.waitNum, |s.plain|, s.resleeps - s.freshPops);
  }

  /** wait_size() is the number of threads inside wait_pop's wait exactly when, modulo 2^32, waits
      begun again balance pops that never waited. */
  lemma {:induction false} WaitSizeExactIff(es: seq<Event>)
    requires Admissible(INIT, es)
    ensures var s := Run(INIT, es);
            |s.plain| < 0x1_0000_0000 ==>
              (s.waitNum == |s.plain| <==> Drift(INIT, es) % 0x1_0000_0000 == 0)
  {
    WaitRun(es);
    DriftRun(INIT, es);
    WaitSizeOf(Run(INIT, es));
  }

  lemma {:induction false} RunCons(s: State, e: Event, es: seq<Event>)
    requires Enabled(s, e) && Admissible(Apply(s, e), es)
    ensures Admissible(s, [e] + es) && Run(s, [e] + es) == Run(Apply(s, e), es)
  {
    assert ([e] + es)[1..] == es;
  }

  /** One push and one pop that finds it: nobody ever waited and wait_size() reports 2^32 - 1. */
  lemma {:induction false} WaitSizeWraps()
    ensures exists es: seq<Event> ::
              && Admissible(INIT, es)
              && var s := Run(INIT, es);
                 s.plain == {} && s.cond == QUIET && s.waitNum == 0xFFFF_FFFF
  {
    var s1 := Apply(INIT, Push(0, 8));
    assert s1.signals == {0};
    var s2 := Apply(s1, Signal(0, None));
    assert s2.signals == {} && s2.queue == [8] && s2.cond == QUIET && s2.plain == {};
    var s3 := Apply(s2, WaitPop(0));
    assert s3.plain == {} && s3.cond == QUIET && s3.waitNum == 0xFFFF_FFFF;
    assert Admissible(s3, []) && Run(s3, []) == s3;
    RunCons(s2, WaitPop(0), []);
    RunCons(s1, Signal(0, None), [WaitPop(0)]);
    RunCons(INIT, Push(0, 8), [Signal(0, None), WaitPop(0)]);
  }

  /** Events that need no new call by anybody and no spurious wake-up. */
  predicate Settling(e: Event) {
    e.Signal? || e.Resume? || e.TimeOut? || e.Expire?
  }

  ghost function Weight(s: State): nat {
    5 * |s.signals| + 4 * |s.cond.woken| + 2 * |s.cond.sleeping| + |s.expired|
  }

  lemma {:induction false} SignalWeight(s: State, t: Tid, wake: Option<Tid>)
    requires t in s.signals && s.cond.MayWake(wake) && s.cond.sleeping !! s.cond.woken
    ensures Weight(Apply(s, Signal(t, wake))) < Weight(s)
  {
    if wake.Some? {
      WokenGrows(s.cond, wake.value);
    }
  }

  lemma {:induction false} TimeOutWeight(s: State, t: Tid)
    requires Enabled(s, TimeOut(t)) && t !in s.cond.woken && t !in s.expired
    ensures Weight(Apply(s, TimeOut(t))) < Weight(s)
  {
    assert s.cond.woken - {t} == s.cond.woken;
  }

  lemma {:induction false} ResumeWeight(s: State, t: Tid)
    requires t in s.cond.woken && t !in s.cond.sleeping
    ensures Weight(Apply(s, Resume(t))) < Weight(s)
  {
    LeaveWoken(s.cond, t);
  }

  lemma {:induction false} WeightDecreases(s: State, e: Event)
    requires Placed(s) && Enabled(s, e) && Settling(e)
    ensures Weight(Apply(s, e)) < Weight(s)
  {
    match e
    case Signal(t, wake) => SignalWeight(s, t, wake);
    case Resume(t) => ResumeWeight(s, t);
    case TimeOut(t) => TimeOutWeight(s, t);
    case Expire(t) =>
  }

  /** Left alone, pending signals and waiting threads come to rest within their weight. */
  lemma {:induction false} RunsSettle(s: State, es: seq<Event>)
    requires Inv(s) && Admissible(s, es) && (forall e | e in es :: Settling(e))
    ensures |es| <= Weight(s)
    decreases |es|
  {
    if es == [] {
    } else {
      assert es[0] in es;
      InvStep(s, es[0]);
      WeightDecreases(s, es[0]);
      RunsSettle(Apply(s, es[0]), es[1..]);
    }
  }

  lemma {:induction false} SignalPossible(s: State, t: Tid)
    requires forall e | Settling(e) :: !Enabled(s, e)
    ensures t !in s.signals
  {
    if s.cond.sleeping == {} {
      assert !Enabled(s, Signal(t, None));
    } else {
      var u :| u in s.cond.sleeping;
      assert !Enabled(s, Signal(t, Some(u)));
    }
  }

  /** Where they come to rest, nobody sleeps beside a queued element. */
  lemma {:induction false} RestOutcome(s: State)
    requires Inv(s) && forall e | Settling(e) :: !Enabled(s, e)
    ensures s.cond.sleeping != {} ==> s.queue == []
    ensures s.plain + s.timed == s.cond.sleeping
  {
    forall t: Tid ensures t !in s.cond.woken && t !in s.expired && t !in s.signals {
      assert !Enabled(s, Resume(t)) && !Enabled(s, Expire(t));
      SignalPossible(s, t);
    }
    assert s.cond.woken == {} && s.signals == {};
  }
}
