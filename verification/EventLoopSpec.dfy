/** The life cycle of all connections under the event loop: the interest set, and the dispatch of
    batches of ready events to the handlers. */
module EventLoopSpec {
  import opened HttpReaderSpec
  import HttpReaderTheorems

  type Id = nat

  datatype Flag = EPOLLIN | EPOLLOUT | EPOLLERR | EPOLLET

  /** One entry of a batch, with what the socket calls made in handling it will answer. */
  datatype Ready = Ready(id: Id, flags: set<Flag>, accepted: bool, recvs: seq<Recv>, sent: bool)

  datatype Fault = NoFault | UnsetHandler | UseAfterFree | ParserUndefined

  datatype World = World(
    conns: map<Id, Conn>,             // allocated connections
    interest: map<Id, set<Flag>>,     // what epoll watches
    freed: seq<Id>,                   // history: freed connections, in order
    next: Id,                         // identities never used so far
    fault: Fault)

  const LISTENER: Id := 0

  const LISTENING: set<Flag> := {EPOLLIN, EPOLLERR}

  const READING: set<Flag> := {EPOLLIN, EPOLLERR, EPOLLET}

  const SENDING: set<Flag> := {EPOLLOUT, EPOLLERR}

  const INIT := World(map[LISTENER := NEW_CONN.(onRead := WebAccept)], map[LISTENER := LISTENING], [], 1, NoFault)

  /** epoll_del_event and close_conn, as both handlers that end a connection call them. */
  function Close(w: World, id: Id): World {
    w.(interest := w.interest - {id}, conns := w.conns - {id}, freed := w.freed + [id])
  }

  function Accept(w: World, e: Ready): World {
    if e.accepted then
      w.(conns := w.conns[w.next := ACCEPTED], interest := w.interest[w.next := READING], next := w.next + 1)
    else w
  }

  /** The socket's answers are possible for the connection. */
  predicate Possible(w: World, e: Ready) {
    e.id in w.conns ==>
      var c := w.conns[e.id];
      ReadRequest == c.onRead || ReadRequest == c.onWrite ==> c.start <= |c.data| && Offered(c, e.recvs)
  }

  function Receive(w: World, e: Ready): World
    requires e.id in w.conns && w.conns[e.id].start <= |w.conns[e.id].data| && Offered(w.conns[e.id], e.recvs)
  {
    if PeerCloses(e.recvs) then Close(w, e.id)
    else
      var c := Read(w.conns[e.id], e.recvs);
      var r := w.(conns := w.conns[e.id := c]);
      if c.undefined then r.(fault := ParserUndefined)
      else if c.stage == SEND_DATA then r.(interest := r.interest[e.id := SENDING])
      else r
  }

  function Call(w: World, h: Handler, e: Ready): World
    requires e.id in w.conns && (h == w.conns[e.id].onRead || h == w.conns[e.id].onWrite) && Possible(w, e)
  {
    match h
    case Unset => w.(fault := UnsetHandler)
    case WebAccept => Accept(w, e)
    case ReadRequest => Receive(w, e)
    case EmptyHandler => w
    case SendResponse => if e.sent then Close(w, e.id) else w
  }

  /** One turn of the dispatch loop. Nothing is said about what follows a fault. */
  function Dispatch(w: World, e: Ready): World
    requires Possible(w, e)
  {
    if w.fault != NoFault then w
    else if e.id !in w.conns then w.(fault := UseAfterFree)
    else if EPOLLIN in e.flags then Call(w, w.conns[e.id].onRead, e)
    else if EPOLLOUT in e.flags then Call(w, w.conns[e.id].onWrite, e)
    else w
  }

  predicate AllPossible(w: World, batch: seq<Ready>)
    decreases |batch|
  {
    batch == [] || (Possible(w, batch[0]) && AllPossible(Dispatch(w, batch[0]), batch[1..]))
  }

  function RunBatch(w: World, batch: seq<Ready>): World
    requires AllPossible(w, batch)
    decreases |batch|
  {
    if batch == [] then w else RunBatch(Dispatch(w, batch[0]), batch[1..])
  }

  /** What epoll_wait may return: distinct registered connections, each with events that it is
      watched for; errors are reported whether asked for or not. */
  predicate Waited(w: World, batch: seq<Ready>) {
    && (forall i, j | 0 <= i < j < |batch| :: batch[i].id != batch[j].id)
    && (forall i | 0 <= i < |batch| ::
          batch[i].id in w.interest && batch[i].flags <= w.interest[batch[i].id] + {EPOLLERR})
    && (forall i | 0 <= i < |batch| :: Possible(w, batch[i]))
  }

  // ------------------------------------------------------------ the invariant

  /** State, handlers and interest of one connection agree. */
  ghost predicate Agrees(id: Id, c: Conn, watched: set<Flag>) {
    if id == LISTENER then
      c.stage == ACCEPT && c.onRead == WebAccept && c.onWrite == Unset && watched == LISTENING
    else
      || (c.stage == READ && c.onRead == ReadRequest && c.onWrite == Unset && watched == READING
          && c.start <= |c.data| && HttpReaderTheorems.Sized(c))
      || (c.stage == SEND_DATA && c.onRead == EmptyHandler && c.onWrite == SendResponse && watched == SENDING)
  }

  ghost predicate Healthy(w: World) {
    && w.conns.Keys == w.interest.Keys
    && LISTENER in w.conns
    && (forall id | id in w.conns :: Agrees(id, w.conns[id], w.interest[id]) && !w.conns[id].undefined)
    && (forall id | id in w.conns :: id < w.next && id !in w.freed)
    && (forall id | id in w.freed :: id < w.next)
    && (forall i, j | 0 <= i < j < |w.freed| :: w.freed[i] != w.freed[j])
    && (forall id | 0 <= id < w.next :: id in w.conns || id in w.freed)
  }

  ghost predicate Inv(w: World) {
    && (w.fault == NoFault || w.fault == ParserUndefined)
    && (w.fault == NoFault ==> Healthy(w))
  }
}
