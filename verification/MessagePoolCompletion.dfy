/** When the destruction of the message pool completes: from the first broadcast on, exactly when no
    worker that has decided to sleep can be overlooked. */
module MessagePoolCompletion {
  import opened Threads
  import opened MessagePoolSpec
  import opened MessagePoolTheorems
  import opened MessagePoolDestruction

  // ------------------------------------------------------------ who can be overlooked

  /** The j-th thread has decided to sleep and does not sleep yet, all signals to come can be sent before it
      does, and the destroying thread gets from its k-th join to the j-th without waiting. */
  predicate OverlookedAt(s: State, k: nat, j: nat) {
    && k <= j < |s.threads| && s.threads[j] in s.workers && s.workers[s.threads[j]].AboutToWait?
    && (forall i | k <= i < j :: s.threads[i] in s.workers && s.workers[s.threads[i]].Exited?)
    && AllSignalling(s.adders)
  }

  /** The destruction can hang: the join in progress can, or a worker can be overlooked by the broadcasts
      that are still to come. */
  ghost predicate Doomed(s: State) {
    match s.destroy
    case FirstBroadcast => exists j: nat :: OverlookedAt(s, 0, j)
    case LoopBroadcast(k) => exists j: nat :: OverlookedAt(s, k, j)
    case Joining(k) =>
      k < |s.threads| && (MayStay(s, s.threads[k]) || exists j: nat :: k < j && OverlookedAt(s, k, j))
    case _ => false
  }

  /** A worker that decides holds the mutex, so it is the only one. */
  lemma {:induction false} AloneDecides(s: State, w: Tid)
    requires Locked(s.holder, s.workers, s.adders) && w in s.workers && s.workers[w].AboutToWait?
    ensures s.holder == Some(w) && Deciding(s.workers) == {w}
    ensures forall v | v in s.workers && WorkerHolds(s.workers[v]) :: v == w
  {
  }

  // ------------------------------------------------------------ not doomed, never doomed

  /** After the flag no turn of a worker makes somebody overlooked. */
  lemma {:induction false} OverlookedBeforeTurn(s: State, v: Tid, k: nat, j: nat)
    requires Locked(s.holder, s.workers, s.adders) && s.shutdown && Enabled(s, Turn(v))
    requires OverlookedAt(WorkerTurn(s, v), k, j)
    ensures OverlookedAt(s, k, j)
  {
    var w := s.threads[j];
    assert w != v && s.workers[w].AboutToWait?;
    AloneDecides(s, w);
    hide Locked;
  }

  lemma {:induction false} OverlookedBeforeAddTurn(s: State, t: Tid, wake: Option<Tid>, k: nat, j: nat)
    requires Locked(s.holder, s.workers, s.adders) && Enabled(s, AddTurn(t, wake))
    requires OverlookedAt(AdderTurn(s, t, wake), k, j)
    ensures OverlookedAt(s, k, j)
  {
    OneDecides(s, t, wake, s.threads[j]);
    var r := AdderTurn(s, t, wake);
    hide Locked;
    assert forall u | u in s.adders :: u == t || (u in r.adders && r.adders[u] == s.adders[u]);
  }

  lemma {:induction false} OverlookedBefore(s: State, e: Event, k: nat, j: nat)
    requires Inv(s) && s.shutdown && Ongoing(e) && Enabled(s, e) && OverlookedAt(Apply(s, e), k, j)
    ensures OverlookedAt(s, k, j)
  {
    if e.Turn? {
      OverlookedBeforeTurn(s, e.w, k, j);
    } else {
      OverlookedBeforeAddTurn(s, e.t, e.wake, k, j);
    }
  }

  lemma {:induction false} MayStayBefore(s: State, e: Event, w: Tid)
    requires Inv(s) && s.shutdown && JoinOf(s, w) && Ongoing(e) && Enabled(s, e) && MayStay(Apply(s, e), w)
    ensures MayStay(s, w)
  {
    if !MayStay(s, w) {
      if Stuck(s, w) {
        BoundToWakeStep(s, e, w);
      } else {
        StaysUnstuck(s, e, w);
      }
    }
  }

  lemma {:induction false} SameDestruction(s: State, e: Event)
    requires Ongoing(e) && Enabled(s, e)
    ensures Apply(s, e).destroy == s.destroy && Apply(s, e).threads == s.threads
  {
  }

  lemma {:induction false} JoinIsOf(s: State)
    requires Inv(s) && s.destroy.Joining?
    ensures JoinOf(s, s.threads[s.destroy.i])
  {
  }

  lemma {:induction false} DoomedBefore(s: State, e: Event)
    requires Inv(s) && s.shutdown && Ongoing(e) && Enabled(s, e) && Doomed(Apply(s, e))
    ensures Doomed(s)
  {
    hide Inv, OverlookedAt, MayStay, Apply, Enabled;
    var r := Apply(s, e);
    SameDestruction(s, e);
    if s.destroy.Joining? && MayStay(r, s.threads[s.destroy.i]) {
      JoinIsOf(s);
      MayStayBefore(s, e, s.threads[s.destroy.i]);
    } else {
      var k := if s.destroy.FirstBroadcast? then 0 else s.destroy.i;
      var j: nat :| OverlookedAt(r, k, j) && (s.destroy.Joining? ==> k < j);
      OverlookedBefore(s, e, k, j);
    }
  }

  /** After a broadcast nobody is stuck but who has yet to fall asleep. */
  lemma {:induction false} MayStayAwake(s: State, w: Tid)
    requires Inv(s) && s.ready.sleeping == {} && MayStay(s, w)
    ensures s.workers[w].AboutToWait? && AllSignalling(s.adders)
  {
    AloneDecides(s, w);
    assert Deaf(s) == {w};
  }

  lemma {:induction false} SameOverlooked(s: State, r: State, k: nat, j: nat)
    requires r.threads == s.threads && r.workers == s.workers && r.adders == s.adders
    ensures OverlookedAt(r, k, j) <==> OverlookedAt(s, k, j)
  {
  }

  /** A join that need not wait changes nothing for those after it. */
  lemma {:induction false} OverlookedFrom(s: State, k: nat, j: nat)
    requires k < |s.threads| && s.threads[k] in s.workers && s.workers[s.threads[k]].Exited?
    ensures OverlookedAt(s, k + 1, j) <==> OverlookedAt(s, k, j) && k < j
  {
  }

  /** A turn of the destroying thread leaves the others where they are; a broadcast leaves nobody asleep, all
      who slept are awake, and a join has waited for its worker's exit. */
  lemma {:induction false} DestroyerTurn(s: State)
    requires Enabled(s, DestroyTurn)
    ensures var r := Destroying(s);
            && r.threads == s.threads && r.workers == s.workers && r.adders == s.adders && r.queue == s.queue
            && match s.destroy
               case NotCalled => r.destroy == Raising && r.ready == s.ready && r.shutdown == s.shutdown
               case Raising => r.destroy == FirstBroadcast && r.ready == s.ready && r.shutdown
               case FirstBroadcast =>
                 r.ready.sleeping == {} && r.ready.woken == s.ready.woken + s.ready.sleeping
                 && r.destroy == LoopBroadcast(0)
               case LoopBroadcast(i) =>
                 if i < |s.threads| then
                   r.ready.sleeping == {} && r.ready.woken == s.ready.woken + s.ready.sleeping
                   && r.destroy == Joining(i)
                 else r.ready == s.ready && r.destroy == Joined
               case Joining(i) =>
                 i < |s.threads| && s.threads[i] in s.workers && s.workers[s.threads[i]].Exited?
                 && r.ready == s.ready && r.destroy == LoopBroadcast(i + 1)
               case Joined => false
  {
  }

  lemma {:induction false} FlagMeans(s: State)
    requires Inv(s) && s.shutdown
    ensures !s.destroy.NotCalled? && !s.destroy.Raising?
  {
  }

  lemma {:induction false} OverlookedNow(s: State, k: nat)
    requires k < |s.threads| && s.threads[k] in s.workers && s.workers[s.threads[k]].AboutToWait?
    requires AllSignalling(s.adders)
    ensures OverlookedAt(s, k, k)
  {
  }

  lemma {:induction false} DoomedBeforeDestroy(s: State)
    requires Inv(s) && s.shutdown && Enabled(s, DestroyTurn) && Doomed(Destroying(s))
    ensures Doomed(s)
  {
    var r := Destroying(s);
    DestroyerTurn(s);
    InvDestroy(s);
    FlagMeans(s);
    hide Inv, Enabled, Destroying, OverlookedAt, MayStay;
    if s.destroy.LoopBroadcast? && MayStay(r, s.threads[s.destroy.i]) {
      MayStayAwake(r, s.threads[s.destroy.i]);
      OverlookedNow(r, s.destroy.i);
      SameOverlooked(s, r, s.destroy.i, s.destroy.i);
    } else if s.destroy.Joining? {
      var j: nat :| OverlookedAt(r, s.destroy.i + 1, j);
      SameOverlooked(s, r, s.destroy.i + 1, j);
      OverlookedFrom(s, s.destroy.i, j);
    } else {
      var k := if s.destroy.FirstBroadcast? then 0 else s.destroy.i;
      var j: nat :| OverlookedAt(r, k, j);
      SameOverlooked(s, r, k, j);
    }
  }

  lemma {:induction false} NeverDoomed(s: State, es: seq<Event>)
    requires Inv(s) && s.shutdown && !Doomed(s) && Admissible(s, es) && AllUnprompted(es)
    ensures !Doomed(Run(s, es))
    decreases |es|
  {
    hide Inv, Doomed, Enabled, Destroying;
    if es == [] {
    } else {
      var e := es[0];
      assert e in es;
      Kept(s, e);
      if Doomed(Apply(s, e)) {
        if e.DestroyTurn? {
          DoomedBeforeDestroy(s);
        } else {
          DoomedBefore(s, e);
        }
      }
      NeverDoomed(Apply(s, e), es[1..]);
    }
  }

  /** Where nothing can move and nothing is doomed, the destroying thread has joined everybody. */
  lemma {:induction false} RestIsJoined(s: State)
    requires Inv(s) && s.shutdown && AtRest(s) && !Doomed(s)
    ensures s.destroy.Joined?
  {
    assert Unprompted(DestroyTurn) && !Enabled(s, DestroyTurn);
    if s.destroy.Joining? {
      JoinIsOf(s);
      var w := s.threads[s.destroy.i];
      if Stuck(s, w) {
        StuckAtRestStays(s, w);
      } else {
        UnstuckExits(s, w);
      }
    }
  }

  // ------------------------------------------------------------ doomed, can hang

  lemma {:induction false} MayBeOverlooked(s: State, k: nat)
    requires OverlookedAt(s, k, k)
    ensures MayStay(s, s.threads[k])
  {
  }

  lemma {:induction false} PassesExited(s: State, k: nat, j: nat)
    requires OverlookedAt(s, k, j) && k < j
    ensures k < |s.threads| && s.threads[k] in s.workers && s.workers[s.threads[k]].Exited?
  {
  }

  lemma {:induction false} DestroyerCanTurn(s: State)
    requires !s.destroy.Joined?
    requires s.destroy.Joining? ==>
               var i := s.destroy.i;
               i < |s.threads| && s.threads[i] in s.workers && s.workers[s.threads[i]].Exited?
    ensures Enabled(s, DestroyTurn)
  {
  }

  lemma {:induction false} OverlookedInside(s: State, k: nat, j: nat)
    requires OverlookedAt(s, k, j)
    ensures k <= j < |s.threads|
  {
  }

  /** The destroying thread goes on, and the worker that is overlooked stays so. */
  lemma {:induction false} StaysDoomed(s: State)
    requires Inv(s) && Doomed(s) && !(s.destroy.Joining? && MayStay(s, s.threads[s.destroy.i]))
    ensures Enabled(s, DestroyTurn) && Doomed(Destroying(s))
  {
    hide Inv, Enabled, Destroying, OverlookedAt, MayStay;
    var r := Destroying(s);
    if s.destroy.Joining? {
      var j: nat :| s.destroy.i < j && OverlookedAt(s, s.destroy.i, j);
      PassesExited(s, s.destroy.i, j);
      DestroyerCanTurn(s);
      DestroyerTurn(s);
      OverlookedFrom(s, s.destroy.i, j);
      SameOverlooked(s, r, s.destroy.i + 1, j);
    } else {
      var k := if s.destroy.FirstBroadcast? then 0 else s.destroy.i;
      var j: nat :| OverlookedAt(s, k, j);
      OverlookedInside(s, k, j);
      DestroyerCanTurn(s);
      DestroyerTurn(s);
      SameOverlooked(s, r, k, j);
      if j == k {
        MayBeOverlooked(r, k);
      }
    }
  }

  lemma {:induction false} DestroyIsTurn(s: State)
    requires Enabled(s, DestroyTurn)
    ensures Apply(s, DestroyTurn) == Destroying(s)
  {
  }

  lemma {:induction false} HangingRun(s: State) returns (es: seq<Event>)
    requires Inv(s) && s.shutdown && Doomed(s)
    ensures EndsAt(s, es) && !Run(s, es).destroy.Joined?
    decreases TurnsInAll(s)
  {
    SomeTurnsLeft(s);
    hide Inv, Enabled, Apply, Destroying, TurnsInAll, MayStay, OverlookedAt, AtRest, Doomed;
    if s.destroy.Joining? && MayStay(s, s.threads[s.destroy.i]) {
      JoinIsOf(s);
      es := StayRun(s, s.threads[s.destroy.i]);
    } else {
      StaysDoomed(s);
      DestroyIsTurn(s);
      Kept(s, DestroyTurn);
      var rest := HangingRun(Apply(s, DestroyTurn));
      es := [DestroyTurn] + rest;
      assert es[1..] == rest;
    }
  }

  // ------------------------------------------------------------ main results

  /** Once the flag is up: every way on ends with all joins done if and only if the destruction is not
      doomed, that is, the join in progress cannot hang and nobody can be overlooked by the broadcasts to
      come. */
  lemma {:induction false} CompletesIff(s: State)
    requires Inv(s) && s.shutdown
    ensures (forall es | EndsAt(s, es) :: Run(s, es).destroy.Joined?) <==> !Doomed(s)
  {
    if Doomed(s) {
      var es := HangingRun(s);
    } else {
      forall es | EndsAt(s, es) ensures Run(s, es).destroy.Joined? {
        NeverDoomed(s, es);
        InvRun(s, es);
        ShutdownStays(s, es);
        RestIsJoined(Run(s, es));
      }
    }
  }

  /** How many joins have completed. */
  function JoinsDone(d: Destroy, n: nat): nat {
    match d
    case LoopBroadcast(i) => i
    case Joining(i) => i
    case Joined => n
    case _ => 0
  }

  ghost predicate JoinedExited(s: State) {
    forall i | 0 <= i < JoinsDone(s.destroy, |s.threads|) && i < |s.threads| ::
      s.threads[i] in s.workers && s.workers[s.threads[i]].Exited?
  }

  lemma {:induction false} JoinedExitedStep(s: State, e: Event)
    requires Inv(s) && JoinedExited(s) && Enabled(s, e)
    ensures JoinedExited(Apply(s, e))
  {
  }

  lemma {:induction false} JoinedExitedRun(s: State, es: seq<Event>)
    requires Inv(s) && JoinedExited(s) && Admissible(s, es)
    ensures JoinedExited(Run(s, es))
    decreases |es|
  {
    hide Inv, JoinedExited;
    if es == [] {
    } else {
      InvStep(s, es[0]);
      JoinedExitedStep(s, es[0]);
      JoinedExitedRun(Apply(s, es[0]), es[1..]);
    }
  }

  lemma {:induction false} AllJoined(s: State)
    requires Inv(s) && JoinedExited(s) && s.destroy.Joined?
    ensures forall w | w in s.workers :: s.workers[w].Exited?
  {
    forall w | w in s.workers ensures s.workers[w].Exited? {
      assert w in s.threads;
      var i :| 0 <= i < |s.threads| && s.threads[i] == w;
    }
  }

  /** A destruction that comes to its first broadcast while no worker has decided to sleep always completes:
      every way on ends with all joins done and all workers exited, also those that were asleep. */
  lemma {:induction false} NobodyDecidingCompletes(s: State, es: seq<Event>)
    requires Inv(s) && s.destroy.FirstBroadcast? && Deciding(s.workers) == {} && EndsAt(s, es)
    ensures var r := Run(s, es);
            r.destroy.Joined? && forall w | w in r.workers :: r.workers[w].Exited?
  {
    assert forall w | w in s.workers && s.workers[w].AboutToWait? :: w in Deciding(s.workers);
    assert !Doomed(s) && s.shutdown && JoinedExited(s);
    CompletesIff(s);
    InvRun(s, es);
    JoinedExitedRun(s, es);
    AllJoined(Run(s, es));
  }
}
