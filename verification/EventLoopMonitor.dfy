/** The event loop object: the handlers update the connections and the interest set in place, and
    the dispatch loop is proved to run a batch as EventLoopSpec says. */
module EventLoopMonitor {
  import opened HttpReaderSpec
  import opened EventLoopSpec
  import EventLoopTheorems

  class EventLoop {
    var conns: map<Id, Conn>
    var interest: map<Id, set<Flag>>
    ghost var freed: seq<Id>
    var next: Id
    var fault: Fault

    ghost function W(): World
      reads this
    {
      World(conns, interest, freed, next, fault)
    }

    /** The listening connection is set up and registered. */
    constructor ()
      ensures W() == INIT
    {
      conns := map[LISTENER := NEW_CONN.(onRead := WebAccept)];
      interest := map[LISTENER := {EPOLLIN, EPOLLERR}];
      freed, next, fault := [], 1, NoFault;
    }

    method EpollAddEvent(id: Id, flags: set<Flag>)
      requires id in conns && id !in interest
      modifies this`interest
      ensures interest == old(interest)[id := flags]
    {
      interest := interest[id := flags];
    }

    method EpollModEvent(id: Id, flags: set<Flag>)
      requires id in conns && id in interest
      modifies this`interest
      ensures interest == old(interest)[id := flags]
    {
      interest := interest[id := flags];
    }

    method EpollDelEvent(id: Id)
      requires id in conns
      modifies this`interest
      ensures interest == old(interest) - {id}
    {
      interest := interest - {id};
    }

    /** Only an allocated connection that is no longer watched may be freed. */
    method CloseConn(id: Id)
      requires id in conns && id !in interest
      modifies this`conns, this`freed
      ensures conns == old(conns) - {id} && freed == old(freed) + [id]
    {
      conns, freed := conns - {id}, freed + [id];
    }

    method WebAcceptHandler(e: Ready)
      requires next !in interest
      modifies this
      ensures W() == Accept(old(W()), e)
      ensures if e.accepted then
                conns.Keys == old(conns).Keys + {old(next)} && EventLoopTheorems.FreshReader(conns[old(next)])
                && interest == old(interest)[old(next) := {EPOLLIN, EPOLLERR, EPOLLET}] && next == old(next) + 1
              else conns == old(conns) && interest == old(interest) && next == old(next)
    {
      if !e.accepted {
        return;
      }
      var c := NEW_CONN;
      c := c.(stage := READ, onRead := ReadRequest);
      conns, next := conns[next := c], next + 1;
      EpollAddEvent(next - 1, {EPOLLIN, EPOLLERR, EPOLLET});
    }

    method ReadRequestHandler(e: Ready)
      requires e.id in conns && e.id in interest
      requires conns[e.id].start <= |conns[e.id].data| && Offered(conns[e.id], e.recvs)
      modifies this
      ensures W() == Receive(old(W()), e)
      ensures if PeerCloses(e.recvs) then
                conns == old(conns) - {e.id} && interest == old(interest) - {e.id} && freed == old(freed) + [e.id]
              else conns == old(conns)[e.id := Read(old(conns)[e.id], e.recvs)] && freed == old(freed)
    {
      if PeerCloses(e.recvs) {
        EpollDelEvent(e.id);
        CloseConn(e.id);
        return;
      }
      var c := Read(conns[e.id], e.recvs);
      conns := conns[e.id := c];
      if c.undefined {
        fault := ParserUndefined;
      } else if c.stage == SEND_DATA {
        EpollModEvent(e.id, {EPOLLOUT, EPOLLERR});
      }
    }

    /** When the header cannot be sent the connection stays as it is. */
    method SendResponseHandler(e: Ready)
      requires e.id in conns
      modifies this
      ensures W() == if e.sent then Close(old(W()), e.id) else old(W())
      ensures if e.sent then
                conns == old(conns) - {e.id} && interest == old(interest) - {e.id} && freed == old(freed) + [e.id]
              else conns == old(conns) && interest == old(interest) && freed == old(freed)
    {
      if !e.sent {
        return;
      }
      EpollDelEvent(e.id);
      CloseConn(e.id);
    }

    method CallHandler(h: Handler, e: Ready)
      requires e.id in conns && e.id in interest && next !in interest
      requires (h == conns[e.id].onRead || h == conns[e.id].onWrite) && Possible(W(), e)
      modifies this
      ensures W() == Call(old(W()), h, e)
    {
      match h
      case Unset => fault := UnsetHandler;
      case WebAccept => WebAcceptHandler(e);
      case ReadRequest => ReadRequestHandler(e);
      case EmptyHandler =>
      case SendResponse => SendResponseHandler(e);
    }

    method DispatchOne(e: Ready)
      requires Healthy(W()) && fault == NoFault && e.id in interest && Possible(W(), e)
      modifies this
      ensures W() == Dispatch(old(W()), e)
      ensures EPOLLIN in e.flags ==> W() == Call(old(W()), old(conns)[e.id].onRead, e)
      ensures EPOLLIN !in e.flags && EPOLLOUT in e.flags ==> W() == Call(old(W()), old(conns)[e.id].onWrite, e)
    {
      if EPOLLIN in e.flags {
        CallHandler(conns[e.id].onRead, e);
      } else if EPOLLOUT in e.flags {
        CallHandler(conns[e.id].onWrite, e);
      }
    }

    /** One batch of the dispatch loop. It stops at a fault, after which nothing is known. */
    method ProcessEvents(batch: seq<Ready>)
      requires Inv(W()) && fault == NoFault && Waited(W(), batch)
      modifies this
      ensures Inv(W()) && AllPossible(old(W()), batch) && W() == RunBatch(old(W()), batch)
    {
      EventLoopTheorems.BatchInv(W(), batch);
      var i := 0;
      while i < |batch| && fault == NoFault
        invariant 0 <= i <= |batch| && Inv(W())
        invariant fault == NoFault ==> Waited(W(), batch[i..])
        invariant AllPossible(W(), batch[i..]) && RunBatch(W(), batch[i..]) == RunBatch(old(W()), batch)
        decreases |batch| - i
      {
        hide Read, Offered;
        var e, rest := batch[i], batch[i..];
        ghost var w := W();
        assert rest[0] == e && rest[1..] == batch[i + 1..];
        EventLoopTheorems.DispatchInv(w, e);
        EventLoopTheorems.RestWaited(w, rest);
        EventLoopTheorems.WatchedIsLive(w, e.id);
        DispatchOne(e);
        i := i + 1;
      }
      if fault != NoFault {
        EventLoopTheorems.FaultLasts(W(), batch[i..]);
      } else {
        assert batch[i..] == [];
      }
    }
  }
}
