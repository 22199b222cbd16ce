/** What every run of the event loop guarantees. */
module EventLoopTheorems {
  import opened HttpReaderSpec
  import HttpParser
  import HttpParserTheorems
  import HttpReaderTheorems
  import opened EventLoopSpec

  lemma {:induction false} CloseHealthy(w: World, id: Id)
    requires Healthy(w) && id in w.conns && id != LISTENER
    ensures Healthy(Close(w, id))
  {
    var r := Close(w, id);
    assert r.freed[|w.freed|] == id;
    assert forall x | x in w.freed :: x in r.freed;
  }

  lemma {:induction false} AcceptHealthy(w: World, e: Ready)
    requires Healthy(w)
    ensures Healthy(Accept(w, e))
  {
  }

  lemma {:induction false} ReadStages(c: Conn, rs: seq<Recv>)
    requires c.start <= |c.data| && Offered(c, rs) && c.stage == READ && c.onRead == ReadRequest && c.onWrite == Unset
    requires HttpReaderTheorems.Sized(c)
    ensures var d := Read(c, rs);
            !d.undefined ==>
              || (d.stage == READ && d.onRead == ReadRequest && d.onWrite == Unset && d.start <= |d.data|
                  && HttpReaderTheorems.Sized(d))
              || (d.stage == SEND_DATA && d.onRead == EmptyHandler && d.onWrite == SendResponse)
  {
    FillKeeps(c, rs, |rs| - 1);
    HttpReaderTheorems.SizedOverNotifications(c, rs);
  }

  lemma {:induction false} ReceiveHealthy(w: World, e: Ready)
    requires Healthy(w) && w.fault == NoFault && e.id in w.conns && w.conns[e.id].onRead == ReadRequest
    requires Possible(w, e)
    ensures Inv(Receive(w, e))
  {
    if PeerCloses(e.recvs) {
      CloseHealthy(w, e.id);
    } else {
      ReadStages(w.conns[e.id], e.recvs);
    }
  }

  /** Which handler a turn on a watched connection runs. */
  lemma {:induction false} Handled(w: World, e: Ready)
    requires Healthy(w) && w.fault == NoFault && Possible(w, e)
    requires e.id in w.interest && e.flags <= w.interest[e.id] + {EPOLLERR}
    ensures var r := Dispatch(w, e);
            || r == w
            || r == Accept(w, e)
            || (w.conns[e.id].onRead == ReadRequest && r == Receive(w, e))
            || (e.id != LISTENER && r == Close(w, e.id))
  {
  }

  lemma {:induction false} WatchedIsLive(w: World, id: Id)
    requires Healthy(w) && id in w.interest
    ensures id in w.conns
  {
  }

  lemma {:induction false} AcceptFault(w: World, e: Ready)
    ensures Accept(w, e).fault == w.fault
  {
  }

  lemma {:induction false} CloseFault(w: World, id: Id)
    ensures Close(w, id).fault == w.fault
  {
  }

  lemma {:induction false} FaultStays(w: World, e: Ready)
    requires w.fault != NoFault && Possible(w, e)
    ensures Dispatch(w, e) == w
  {
  }

  lemma {:induction false} DispatchInv(w: World, e: Ready)
    requires Inv(w) && Possible(w, e)
    requires w.fault == NoFault ==> e.id in w.interest && e.flags <= w.interest[e.id] + {EPOLLERR}
    ensures Inv(Dispatch(w, e))
  {
    hide Healthy, Dispatch, Receive, Close, Accept;
    if w.fault == NoFault {
      WatchedIsLive(w, e.id);
      Handled(w, e);
      var r := Dispatch(w, e);
      if r == w {
      } else if r == Accept(w, e) {
        AcceptHealthy(w, e);
        AcceptFault(w, e);
      } else if w.conns[e.id].onRead == ReadRequest && r == Receive(w, e) {
        ReceiveHealthy(w, e);
      } else {
        CloseHealthy(w, e.id);
        CloseFault(w, e.id);
      }
    } else {
      FaultStays(w, e);
    }
  }

  /** A turn leaves the connections that other events of the batch are about alone. */
  lemma {:induction false} DispatchFrame(w: World, e: Ready, id: Id)
    requires Possible(w, e) && id in w.conns && id in w.interest && id != e.id && id != w.next
    ensures var r := Dispatch(w, e);
            && id in r.conns && r.conns[id] == w.conns[id]
            && id in r.interest && r.interest[id] == w.interest[id]
  {
    hide Read, Offered;
  }

  /** After a fault the answers of the sockets are of no interest, but still have to be possible. */
  ghost predicate Settled(w: World, batch: seq<Ready>) {
    forall i | 0 <= i < |batch| :: Possible(w, batch[i])
  }

  lemma {:induction false} PossibleKept(w: World, r: World, e: Ready)
    requires e.id in w.conns && e.id in r.conns && w.conns[e.id] == r.conns[e.id] && Possible(w, e)
    ensures Possible(r, e)
  {
  }

  lemma {:induction false} RestWaited(w: World, batch: seq<Ready>)
    requires Inv(w) && w.fault == NoFault && Waited(w, batch) && batch != []
    ensures Waited(Dispatch(w, batch[0]), batch[1..])
  {
    hide Dispatch, Possible;
    var r, rest := Dispatch(w, batch[0]), batch[1..];
    forall i | 0 <= i < |rest|
      ensures rest[i].id in r.interest && r.interest[rest[i].id] == w.interest[rest[i].id]
      ensures Possible(r, rest[i])
    {
      assert rest[i] == batch[i + 1];
      WatchedIsLive(w, rest[i].id);
      DispatchFrame(w, batch[0], rest[i].id);
      PossibleKept(w, r, rest[i]);
    }
  }

  /** The rest of a batch stays as possible as it was when epoll_wait returned it. */
  lemma {:induction false} BatchInv(w: World, batch: seq<Ready>)
    requires Inv(w) && (w.fault == NoFault ==> Waited(w, batch)) && Settled(w, batch)
    ensures AllPossible(w, batch) && Inv(RunBatch(w, batch))
    decreases |batch|
  {
    if batch == [] {
    } else {
      var e := batch[0];
      var r := Dispatch(w, e);
      DispatchInv(w, e);
      if w.fault == NoFault {
        RestWaited(w, batch);
      } else {
        FaultStays(w, e);
      }
      BatchInv(r, batch[1..]);
    }
  }

  // ------------------------------------------------------------ main results

  /** The batches that epoll_wait returns over a run. */
  predicate Admissible(w: World, batches: seq<seq<Ready>>)
    decreases |batches|
  {
    batches == [] ||
    (Waited(w, batches[0]) && AllPossible(w, batches[0]) && Admissible(RunBatch(w, batches[0]), batches[1..]))
  }

  function Run(w: World, batches: seq<seq<Ready>>): World
    requires Admissible(w, batches)
    decreases |batches|
  {
    if batches == [] then w else Run(RunBatch(w, batches[0]), batches[1..])
  }

  /** Whatever epoll_wait returns can be dispatched to its end. */
  lemma {:induction false} WaitedBatchRuns(w: World, batch: seq<Ready>)
    requires Inv(w) && Waited(w, batch)
    ensures AllPossible(w, batch) && Inv(RunBatch(w, batch))
  {
    BatchInv(w, batch);
  }

  lemma {:induction false} InvRun(w: World, batches: seq<seq<Ready>>)
    requires Inv(w) && Admissible(w, batches)
    ensures Inv(Run(w, batches))
    decreases |batches|
  {
    if batches == [] {
    } else {
      BatchInv(w, batches[0]);
      InvRun(RunBatch(w, batches[0]), batches[1..]);
    }
  }

  /** Over every run: no handler that was never set is called and no freed connection is touched. As
      long as the parser keeps to the language's rules, a connection is watched exactly while it is
      allocated, its stage, its handlers and what it is watched for agree, and every connection ever
      accepted is either allocated or has been freed, once. */
  lemma {:induction false} LifeCycle(batches: seq<seq<Ready>>)
    requires Admissible(INIT, batches)
    ensures var w := Run(INIT, batches);
            && w.fault != UnsetHandler && w.fault != UseAfterFree
            && (w.fault == NoFault ==>
                  && w.conns.Keys == w.interest.Keys
                  && (forall id | id in w.conns :: Agrees(id, w.conns[id], w.interest[id]))
                  && (forall id | 0 <= id < w.next :: (id in w.conns) != (id in w.freed))
                  && (forall i, j | 0 <= i < j < |w.freed| :: w.freed[i] != w.freed[j]))
  {
    assert HttpReaderTheorems.Sized(NEW_CONN);
    InvRun(INIT, batches);
  }

  /** A connection that is reading finds, with what has just come, that its data is neither a complete
      request nor an unfinished request line. */
  ghost predicate ReadsUnparsable(w: World, e: Ready) {
    && e.id in w.conns && w.conns[e.id].onRead == ReadRequest && EPOLLIN in e.flags && !PeerCloses(e.recvs)
    && HttpParserTheorems.Unparsable(w.conns[e.id].data + Bytes(e.recvs), w.conns[e.id].start)
  }

  lemma {:induction false} UndefinedIffUnparsable(c: Conn, rs: seq<Recv>)
    requires !c.undefined && c.start <= |c.data| && Offered(c, rs)
    ensures Read(c, rs).undefined <==> HttpParserTheorems.Unparsable(c.data + Bytes(rs), c.start)
  {
    hide HttpParser.ParseRequestLine, HttpParserTheorems.Unfinished, HttpParserTheorems.Complete;
    FillKeeps(c, rs, |rs| - 1);
    HttpReaderTheorems.AllBytes(rs, c);
    HttpParserTheorems.AcceptsIff(c.data + Bytes(rs), c.start, c.fields);
  }

  lemma {:induction false} UnparsableOrNot(w: World, e: Ready)
    requires Inv(w) && w.fault == NoFault && Possible(w, e)
    requires e.id in w.interest && e.flags <= w.interest[e.id] + {EPOLLERR}
    ensures Dispatch(w, e).fault != NoFault <==> ReadsUnparsable(w, e)
  {
    hide Read, Offered, HttpParserTheorems.Unparsable;
    if e.id in w.conns && w.conns[e.id].onRead == ReadRequest {
      UndefinedIffUnparsable(w.conns[e.id], e.recvs);
    }
  }

  lemma {:induction false} FaultLasts(w: World, batch: seq<Ready>)
    requires w.fault != NoFault && AllPossible(w, batch)
    ensures RunBatch(w, batch) == w
    decreases |batch|
  {
    if batch == [] {
    } else {
      FaultLasts(Dispatch(w, batch[0]), batch[1..]);
    }
  }

  lemma {:induction false} UnparsableKept(w: World, batch: seq<Ready>, x: Ready)
    requires Inv(w) && w.fault == NoFault && Waited(w, batch) && AllPossible(w, batch)
    requires batch != [] && x in batch[1..]
    ensures ReadsUnparsable(w, x) <==> ReadsUnparsable(Dispatch(w, batch[0]), x)
  {
    hide Dispatch, Read, HttpParserTheorems.Unparsable;
    var i :| 0 <= i < |batch[1..]| && batch[1..][i] == x;
    assert batch[i + 1] == x;
    WatchedIsLive(w, x.id);
    DispatchFrame(w, batch[0], x.id);
  }

  /** The parser is the only source of trouble: a batch ends in a fault exactly when some connection in it
      reads what is neither a complete request nor an unfinished request line. That can be a well-formed
      request of which only a part has arrived. */
  lemma {:induction false} FaultIffUnparsable(w: World, batch: seq<Ready>)
    requires Inv(w) && w.fault == NoFault && Waited(w, batch) && AllPossible(w, batch)
    ensures RunBatch(w, batch).fault != NoFault <==> exists e | e in batch :: ReadsUnparsable(w, e)
    decreases |batch|
  {
    if batch == [] {
    } else {
      var e, rest := batch[0], batch[1..];
      var r := Dispatch(w, e);
      DispatchInv(w, e);
      RestWaited(w, batch);
      UnparsableOrNot(w, e);
      assert forall x :: x in batch <==> x == e || x in rest;
      if r.fault == NoFault {
        FaultIffUnparsable(r, rest);
        forall x | x in rest ensures ReadsUnparsable(w, x) <==> ReadsUnparsable(r, x) {
          UnparsableKept(w, batch, x);
        }
      } else {
        FaultLasts(r, rest);
      }
    }
  }

  // ------------------------------------------------------------ what each entry does

  /** The entry's connection ends: while it reads, by its peer's closing; while it sends, by an answer that
      could be sent. */
  predicate Closing(w: World, e: Ready) {
    e.id in w.conns &&
    match w.conns[e.id].stage
    case ACCEPT => false
    case READ => EPOLLIN in e.flags && PeerCloses(e.recvs)
    case SEND_DATA => EPOLLOUT in e.flags && e.sent
  }

  /** The entry brings a new connection. */
  predicate Accepting(e: Ready) {
    e.id == LISTENER && EPOLLIN in e.flags && e.accepted
  }

  /** A connection as it is after it was accepted: it reads, into an empty buffer of 1024 bytes. */
  ghost predicate FreshReader(c: Conn) {
    c.stage == READ && c.onRead == ReadRequest && c.onWrite == Unset && c.data == "" && c.start == 0
    && c.remain == 1024 == c.capacity && c.fields == HttpParser.NO_FIELDS && !c.undefined
  }

  /** What a turn on a watched connection does, by what it finds: it ends the connection, and then that is
      neither allocated nor watched any more; or it adds exactly one connection, reading and watched for
      input; or it leaves all others alone and has the connection read on, watched for output once the
      request is complete; or it does nothing. */
  lemma {:induction false} DispatchOutcome(w: World, e: Ready)
    requires Inv(w) && w.fault == NoFault && Possible(w, e)
    requires e.id in w.interest && e.flags <= w.interest[e.id] + {EPOLLERR}
    ensures e.id in w.conns
    ensures var r := Dispatch(w, e);
            if Closing(w, e) then
              r.conns == w.conns - {e.id} && r.interest == w.interest - {e.id} && r.freed == w.freed + [e.id]
              && r.next == w.next && r.fault == NoFault
            else if Accepting(e) then
              && w.next !in w.conns && w.next !in w.freed && r.conns.Keys == w.conns.Keys + {w.next}
              && FreshReader(r.conns[w.next]) && r.interest == w.interest[w.next := {EPOLLIN, EPOLLERR, EPOLLET}]
              && (forall id | id in w.conns :: r.conns[id] == w.conns[id])
              && r.freed == w.freed && r.next == w.next + 1 && r.fault == NoFault
            else if w.conns[e.id].stage == READ && EPOLLIN in e.flags then
              && r.conns == w.conns[e.id := Read(w.conns[e.id], e.recvs)]
              && r.freed == w.freed && r.next == w.next
              && (r.fault == NoFault ==>
                    r.interest == if r.conns[e.id].stage == SEND_DATA then w.interest[e.id := {EPOLLOUT, EPOLLERR}]
                                  else w.interest)
            else r == w
  {
    hide Read, Offered;
  }

  function One(b: bool, id: Id): seq<Id> {
    if b then [id] else []
  }

  /** The connections that a batch ends, in order. */
  ghost function Closings(w: World, batch: seq<Ready>): seq<Id>
    requires AllPossible(w, batch)
    decreases |batch|
  {
    if batch == [] then []
    else One(Closing(w, batch[0]), batch[0].id) + Closings(Dispatch(w, batch[0]), batch[1..])
  }

  ghost function ClosingsOver(w: World, batches: seq<seq<Ready>>): seq<Id>
    requires Admissible(w, batches)
    decreases |batches|
  {
    if batches == [] then []
    else Closings(w, batches[0]) + ClosingsOver(RunBatch(w, batches[0]), batches[1..])
  }

  function Acceptances(batch: seq<Ready>): nat {
    if batch == [] then 0 else (if Accepting(batch[0]) then 1 else 0) + Acceptances(batch[1..])
  }

  function AcceptancesOver(batches: seq<seq<Ready>>): nat {
    if batches == [] then 0 else Acceptances(batches[0]) + AcceptancesOver(batches[1..])
  }

  /** The listening connection neither reads nor sends. */
  lemma {:induction false} ListenerAccepts(w: World, id: Id)
    requires Inv(w) && w.fault == NoFault && id in w.interest && id == LISTENER
    ensures id in w.conns && w.conns[id].stage == ACCEPT
  {
  }

  lemma {:induction false} StepCounts(w: World, e: Ready)
    requires Inv(w) && w.fault == NoFault && Possible(w, e) && Dispatch(w, e).fault == NoFault
    requires e.id in w.interest && e.flags <= w.interest[e.id] + {EPOLLERR}
    ensures Dispatch(w, e).freed == w.freed + One(Closing(w, e), e.id)
    ensures Dispatch(w, e).next == w.next + if Accepting(e) then 1 else 0
  {
    DispatchOutcome(w, e);
    if e.id == LISTENER {
      ListenerAccepts(w, e.id);
    }
    hide Dispatch, Healthy, Possible, FreshReader;
  }

  lemma {:induction false} BatchUnfolds(w: World, batch: seq<Ready>)
    requires AllPossible(w, batch) && batch != []
    ensures var (e, rest) := (batch[0], batch[1..]);
            && Possible(w, e) && AllPossible(Dispatch(w, e), rest)
            && RunBatch(w, batch) == RunBatch(Dispatch(w, e), rest)
            && Closings(w, batch) == One(Closing(w, e), e.id) + Closings(Dispatch(w, e), rest)
            && Acceptances(batch) == (if Accepting(e) then 1 else 0) + Acceptances(rest)
  {
    hide Dispatch, Possible, Closing;
  }

  lemma {:induction false} WaitedFirst(w: World, batch: seq<Ready>)
    requires Waited(w, batch) && batch != []
    ensures batch[0].id in w.interest && batch[0].flags <= w.interest[batch[0].id] + {EPOLLERR} && Possible(w, batch[0])
  {
  }

  lemma {:induction false} NoEntries(w: World)
    ensures RunBatch(w, []) == w && w.freed + Closings(w, []) == w.freed && Acceptances([]) == 0
  {
  }

  lemma {:induction false} BatchCounts(w: World, batch: seq<Ready>)
    requires Inv(w) && w.fault == NoFault && Waited(w, batch) && AllPossible(w, batch)
    requires RunBatch(w, batch).fault == NoFault
    ensures RunBatch(w, batch).freed == w.freed + Closings(w, batch)
    ensures RunBatch(w, batch).next == w.next + Acceptances(batch)
    decreases |batch|
  {
    hide *;
    if batch == [] {
      NoEntries(w);
    } else {
      BatchUnfolds(w, batch);
      WaitedFirst(w, batch);
      var e, rest, r := batch[0], batch[1..], Dispatch(w, batch[0]);
      DispatchInv(w, e);
      RestWaited(w, batch);
      if r.fault != NoFault {
        FaultLasts(r, rest);
      }
      StepCounts(w, e);
      BatchCounts(r, rest);
      var (c, d) := (One(Closing(w, e), e.id), Closings(r, rest));
      assert w.freed + c + d == w.freed + (c + d);
    }
  }

  lemma {:induction false} RunUnfolds(w: World, batches: seq<seq<Ready>>)
    requires Admissible(w, batches) && batches != []
    ensures var (b, rest) := (batches[0], batches[1..]);
            && Waited(w, b) && AllPossible(w, b) && Admissible(RunBatch(w, b), rest)
            && Run(w, batches) == Run(RunBatch(w, b), rest)
            && ClosingsOver(w, batches) == Closings(w, b) + ClosingsOver(RunBatch(w, b), rest)
            && AcceptancesOver(batches) == Acceptances(b) + AcceptancesOver(rest)
  {
    hide RunBatch, Waited, AllPossible, Closings, Acceptances;
  }

  lemma {:induction false} NoBatches(w: World)
    ensures Run(w, []) == w && w.freed + ClosingsOver(w, []) == w.freed && AcceptancesOver([]) == 0
  {
  }

  lemma {:induction false} FaultRuns(w: World, batches: seq<seq<Ready>>)
    requires w.fault != NoFault && Admissible(w, batches)
    ensures Run(w, batches) == w
    decreases |batches|
  {
    if batches == [] {
    } else {
      FaultLasts(w, batches[0]);
      FaultRuns(w, batches[1..]);
    }
  }

  lemma {:induction false} RunCounts(w: World, batches: seq<seq<Ready>>)
    requires Inv(w) && w.fault == NoFault && Admissible(w, batches) && Run(w, batches).fault == NoFault
    ensures Run(w, batches).freed == w.freed + ClosingsOver(w, batches)
    ensures Run(w, batches).next == w.next + AcceptancesOver(batches)
    decreases |batches|
  {
    hide *;
    if batches == [] {
      NoBatches(w);
    } else {
      RunUnfolds(w, batches);
      var r := RunBatch(w, batches[0]);
      WaitedBatchRuns(w, batches[0]);
      if r.fault != NoFault {
        FaultRuns(r, batches[1..]);
      }
      BatchCounts(w, batches[0]);
      RunCounts(r, batches[1..]);
      var (c, d) := (Closings(w, batches[0]), ClosingsOver(r, batches[1..]));
      assert w.freed + c + d == w.freed + (c + d);
    }
  }

  /** Over every run in which the parser keeps to the rules: the connections freed are exactly those that
      some entry ended, by the peer's closing or by a sent answer, in that order; and there have been exactly
      as many connections as were accepted. */
  lemma {:induction false} FreedExactly(batches: seq<seq<Ready>>)
    requires Admissible(INIT, batches) && Run(INIT, batches).fault == NoFault
    ensures Run(INIT, batches).freed == ClosingsOver(INIT, batches)
    ensures Run(INIT, batches).next == 1 + AcceptancesOver(batches)
  {
    assert HttpReaderTheorems.Sized(NEW_CONN);
    assert Inv(INIT);
    hide Dispatch, RunBatch, Healthy, Inv;
    RunCounts(INIT, batches);
    assert [] + ClosingsOver(INIT, batches) == ClosingsOver(INIT, batches);
  }

  /** Batches have to be free of duplicates: two writable events for one connection in one batch
      touch it after it was freed. */
  lemma {:induction false} DuplicateEventFaults(w: World, e: Ready)
    requires Healthy(w) && w.fault == NoFault && e.id in w.conns && w.conns[e.id].stage == SEND_DATA
    requires e.flags == {EPOLLOUT} && e.sent
    ensures AllPossible(w, [e, e]) && RunBatch(w, [e, e]).fault == UseAfterFree
  {
    var r := Dispatch(w, e);
    assert r == Close(w, e.id) && e.id !in r.conns;
    var q := Dispatch(r, e);
    assert [e, e][1..] == [e] && [e][1..] == [];
    assert AllPossible(r, [e]) && RunBatch(r, [e]) == q;
  }
}
