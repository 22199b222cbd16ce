/** The connection pool: a cap, lazy creation, and replacement of dead connections. All its operations
    run under one mutex, so each is one step. */
module ConnPoolSpec {
  import opened Threads

  /** A connection, by its address: no two live connections share one. */
  type Conn = nat

  /** A client that was given a connection and has not given it back. */
  datatype Hold = Hold(client: Tid, conn: Conn)

  datatype State = State(
    maxSize: int,
    idle: seq<Conn>,
    curSize: int,
    held: seq<Hold>,            // what is out, and with whom
    alive: bool,                // the pool has not been destroyed
    made: multiset<Conn>,       // history: connections that the pool had the database open
    deleted: multiset<Conn>,    // history: connections that the pool deleted
    strays: multiset<Conn>)     // history: releases by clients that did not hold the connection

  /** Destroy is what the destructor does, so it is the last thing that happens to a pool. The outcome of
      a connect attempt, and whether the front connection is found closed, are up to the database; they matter
      only where the code asks for them. */
  datatype Event =
    | Get(client: Tid, closed: bool, connect: Option<Conn>)
    | Release(client: Tid, conn: Option<Conn>)
    | Destroy

  function Cap(maxSize: int): nat {
    if maxSize > 0 then maxSize else 0
  }

  /** Integer division by two as C++ does it. */
  function Half(n: int): int {
    if n >= 0 then n / 2 else -((-n) / 2)
  }

  function Successes(connects: seq<Option<Conn>>): seq<Conn> {
    if connects == [] then []
    else
      var last := connects[|connects| - 1];
      Successes(connects[..|connects| - 1]) + if last.Some? then [last.value] else []
  }

  ghost predicate Distinct(conns: seq<Conn>) {
    forall i, j | 0 <= i < j < |conns| :: conns[i] != conns[j]
  }

  /** The connections that are out. */
  function Conns(held: seq<Hold>): multiset<Conn> {
    if held == [] then multiset{} else multiset{held[0].conn} + Conns(held[1..])
  }

  function Without(held: seq<Hold>, h: Hold): seq<Hold> {
    if held == [] then [] else if held[0] == h then held[1..] else [held[0]] + Without(held[1..], h)
  }

  function Init(maxSize: int, connects: seq<Option<Conn>>): State {
    var idle := Successes(connects);
    State(maxSize, idle, |idle|, [], true, multiset(idle), multiset{}, multiset{})
  }

  predicate Connects(s: State, e: Event) {
    e.Get? && if s.idle != [] then e.closed else s.curSize < s.maxSize
  }

  /** A connection just made is at the address of no live one. */
  predicate Enabled(s: State, e: Event) {
    && s.alive
    && (Connects(s, e) && e.connect.Some? ==>
          e.connect.value !in Conns(s.held) && (s.idle == [] || e.connect.value !in s.idle[1..]))
  }

  /** What GetConnection returns. */
  function Got(s: State, e: Event): Option<Conn>
    requires e.Get?
  {
    if Connects(s, e) then e.connect else if s.idle != [] then Some(s.idle[0]) else None
  }

  /** The connections an operation closes or deletes. */
  function Deleted(s: State, e: Event): seq<Conn> {
    match e
    case Get(_, closed, _) => if s.idle != [] && closed then [s.idle[0]] else []
    case Release(_, _) => []
    case Destroy => s.idle
  }

  // What GetConnection does, variable by variable.
  function NextIdle(s: State): seq<Conn> {
    if s.idle != [] then s.idle[1..] else []
  }

  function NextSize(s: State, got: Option<Conn>): int {
    if s.idle != [] then (if got.None? then s.curSize - 1 else s.curSize)
    else if got.Some? then s.curSize + 1 else s.curSize
  }

  function NextHeld(s: State, client: Tid, got: Option<Conn>): seq<Hold> {
    if got.Some? then [Hold(client, got.value)] + s.held else s.held
  }

  function NextMade(s: State, e: Event, got: Option<Conn>): multiset<Conn> {
    if Connects(s, e) && got.Some? then s.made + multiset{got.value} else s.made
  }

  function NextDeleted(s: State, closed: bool): multiset<Conn> {
    if s.idle != [] && closed then s.deleted + multiset{s.idle[0]} else s.deleted
  }

  function Apply(s: State, e: Event): State
    requires Enabled(s, e)
  {
    match e
    case Get(client, closed, _) =>
      var got := Got(s, e);
      s.(idle := NextIdle(s), curSize := NextSize(s, got), held := NextHeld(s, client, got),
         made := NextMade(s, e, got), deleted := NextDeleted(s, closed))
    case Release(_, None) => s
    case Release(client, Some(c)) =>
      var h := Hold(client, c);
      if h in s.held then s.(idle := s.idle + [c], held := Without(s.held, h))
      else s.(idle := s.idle + [c], strays := s.strays + multiset{c})
    case Destroy => s.(idle := [], curSize := 0, alive := false, deleted := s.deleted + multiset(s.idle))
  }

  predicate Admissible(s: State, es: seq<Event>)
    decreases |es|
  {
    es == [] || (Enabled(s, es[0]) && Admissible(Apply(s, es[0]), es[1..]))
  }

  function Run(s: State, es: seq<Event>): State
    requires Admissible(s, es)
    decreases |es|
  {
    if es == [] then s else Run(Apply(s, es[0]), es[1..])
  }

  /** A client gives back only what it holds. */
  predicate Proper(s: State, e: Event) {
    e.Release? && e.conn.Some? ==> Hold(e.client, e.conn.value) in s.held
  }

  predicate AllProper(s: State, es: seq<Event>)
    requires Admissible(s, es)
    decreases |es|
  {
    es == [] || (Proper(s, es[0]) && AllProper(Apply(s, es[0]), es[1..]))
  }

  /** The books: every connection of the pool is idle or out, in one place only, and the counter is
      their number, within the cap. */
  ghost predicate Accounts(s: State) {
    && s.curSize == |s.idle| + |s.held|
    && s.curSize <= Cap(s.maxSize)
    && forall c :: multiset(s.idle)[c] + Conns(s.held)[c] <= 1
  }
}
