/** What every run of the connection pool guarantees, and exactly what breaks it. */
module ConnPoolTheorems {
  import opened Sequences
  import opened Threads
  import opened ConnPoolSpec

  // ------------------------------------------------------------ the books

  lemma {:induction false} OneSuccess(connects: seq<Option<Conn>>, last: Option<Conn>)
    ensures Successes(connects + [last]) == Successes(connects) + if last.Some? then [last.value] else []
  {
    assert (connects + [last])[..|connects|] == connects;
  }

  /** Of the attempts exactly those that succeeded give a connection, in order. */
  lemma {:induction false} SuccessesInOrder(before: seq<Option<Conn>>, after: seq<Option<Conn>>)
    ensures Successes([]) == [] && Successes(before + after) == Successes(before) + Successes(after)
    ensures |after| == 1 ==> Successes(after) == if after[0].Some? then [after[0].value] else []
    decreases |after|
  {
    assert Successes([]) == [];
    hide Successes;
    if after == [] {
      assert before + [] == before && Successes(before) + [] == Successes(before);
    } else {
      var front, last := after[..|after| - 1], after[|after| - 1];
      var more: seq<Conn> := if last.Some? then [last.value] else [];
      assert after == front + [last] && before + after == (before + front) + [last];
      OneSuccess(front, last);
      OneSuccess(before + front, last);
      SuccessesInOrder(before, front);
      assert Successes(before) + Successes(front) + more == Successes(before) + (Successes(front) + more);
    }
  }

  lemma {:induction false} NoMoreThanAsked(connects: seq<Option<Conn>>)
    ensures |Successes(connects)| <= |connects|
    decreases |connects|
  {
    if connects == [] {
    } else {
      NoMoreThanAsked(connects[..|connects| - 1]);
    }
  }

  lemma {:induction false} DistinctOnce(conns: seq<Conn>)
    requires Distinct(conns)
    ensures forall c :: multiset(conns)[c] <= 1
    decreases |conns|
  {
    if conns == [] {
    } else {
      var front := conns[..|conns| - 1];
      DistinctOnce(front);
      assert conns == front + [conns[|conns| - 1]];
      assert conns[|conns| - 1] !in front;
    }
  }

  lemma {:induction false} InitAccounts(maxSize: int, connects: seq<Option<Conn>>)
    requires |connects| == Cap(Half(maxSize)) && Distinct(Successes(connects))
    ensures Accounts(Init(maxSize, connects))
  {
    NoMoreThanAsked(connects);
    DistinctOnce(Successes(connects));
  }

  lemma {:induction false} WithoutOne(held: seq<Hold>, h: Hold)
    requires h in held
    ensures |Without(held, h)| == |held| - 1
    ensures Conns(held) == Conns(Without(held, h)) + multiset{h.conn}
    decreases |held|
  {
    if held[0] == h {
    } else {
      WithoutOne(held[1..], h);
      var rest := Without(held[1..], h);
      assert ([held[0]] + rest)[1..] == rest;
    }
  }

  lemma {:induction false} HoldIsOut(held: seq<Hold>, h: Hold)
    requires h in held
    ensures h.conn in Conns(held)
  {
    WithoutOne(held, h);
  }

  lemma {:induction false} OneMore(held: seq<Hold>, h: Hold)
    ensures Conns([h] + held) == multiset{h.conn} + Conns(held)
  {
    assert ([h] + held)[1..] == held;
  }

  lemma {:induction false} Front(idle: seq<Conn>)
    requires idle != []
    ensures multiset(idle) == multiset{idle[0]} + multiset(idle[1..])
  {
    assert idle == [idle[0]] + idle[1..];
  }

  lemma {:induction false} GetAccounts(s: State, e: Event)
    requires Accounts(s) && Enabled(s, e) && e.Get?
    ensures Accounts(Apply(s, e))
  {
    if s.idle != [] {
      Front(s.idle);
    }
    if Got(s, e).Some? {
      OneMore(s.held, Hold(e.client, Got(s, e).value));
    }
  }

  lemma {:induction false} ReleaseAccountsIff(s: State, client: Tid, c: Conn)
    requires Accounts(s) && s.alive
    ensures Accounts(Apply(s, Release(client, Some(c)))) <==> Hold(client, c) in s.held
  {
    assert multiset(s.idle + [c]) == multiset(s.idle) + multiset{c};
    if Hold(client, c) in s.held {
      WithoutOne(s.held, Hold(client, c));
    }
  }

  /** One step from books in order leaves them in order exactly when it is proper: whatever the
      database does, only a client that gives back what it does not hold upsets them. */
  lemma {:induction false} AccountsKeptIff(s: State, e: Event)
    requires Accounts(s) && Enabled(s, e) && !e.Destroy?
    ensures Accounts(Apply(s, e)) <==> Proper(s, e)
  {
    match e
    case Get(_, _, _) => GetAccounts(s, e);
    case Release(_, None) =>
    case Release(client, Some(c)) => ReleaseAccountsIff(s, client, c);
  }

  lemma {:induction false} StillAlive(s: State, es: seq<Event>)
    requires Admissible(s, es) && Run(s, es).alive && es != []
    ensures !es[0].Destroy? && Apply(s, es[0]).alive
  {
  }

  lemma {:induction false} AccountsRun(s: State, es: seq<Event>)
    requires Accounts(s) && Admissible(s, es) && AllProper(s, es) && Run(s, es).alive
    ensures Accounts(Run(s, es)) && Run(s, es).maxSize == s.maxSize
    decreases |es|
  {
    hide Accounts;
    if es == [] {
    } else {
      StillAlive(s, es);
      AccountsKeptIff(s, es[0]);
      AccountsRun(Apply(s, es[0]), es[1..]);
    }
  }

  /** Half of the cap is rounded towards zero. */
  lemma {:induction false} HalfIs(n: int)
    ensures n >= 0 ==> 2 * Half(n) <= n <= 2 * Half(n) + 1
    ensures n < 0 ==> 2 * Half(n) - 1 <= n <= 2 * Half(n)
  {
  }

  // ------------------------------------------------------------ every run, proper or not

  /** By how much the entries, in the list and out, outnumber the counter. */
  ghost function Excess(s: State): int {
    |s.idle| + |s.held| - s.curSize
  }

  lemma {:induction false} ExcessStep(s: State, e: Event)
    requires Enabled(s, e) && !e.Destroy?
    ensures Excess(Apply(s, e)) == Excess(s) + if Proper(s, e) then 0 else 1
  {
    if e.Release? && e.conn.Some? && Hold(e.client, e.conn.value) in s.held {
      WithoutOne(s.held, Hold(e.client, e.conn.value));
    }
  }

  /** How many of the releases were by clients that did not hold the connection. */
  ghost function Strays(s: State, es: seq<Event>): nat
    requires Admissible(s, es)
    decreases |es|
  {
    if es == [] then 0
    else (if Proper(s, es[0]) then 0 else 1) + Strays(Apply(s, es[0]), es[1..])
  }

  /** The exact accounting of every run, proper or not, as long as the pool lives: the counter falls
      behind the entries by one with each stray release and is otherwise exact. */
  lemma {:induction false} ExcessCountsStrays(s: State, es: seq<Event>)
    requires Admissible(s, es) && Run(s, es).alive
    ensures Excess(Run(s, es)) == Excess(s) + Strays(s, es)
    decreases |es|
  {
    if es == [] {
    } else {
      StillAlive(s, es);
      ExcessStep(s, es[0]);
      ExcessCountsStrays(Apply(s, es[0]), es[1..]);
    }
  }

  lemma {:induction false} NoStraysIsProper(s: State, es: seq<Event>)
    requires Admissible(s, es)
    ensures Strays(s, es) == 0 <==> AllProper(s, es)
    decreases |es|
  {
    if es == [] {
    } else {
      NoStraysIsProper(Apply(s, es[0]), es[1..]);
    }
  }

  /** So the books of a living pool are in order if and only if every client has only ever given back
      what it held. One stray release upsets them for good. */
  lemma {:induction false} AccountsIff(maxSize: int, connects: seq<Option<Conn>>, es: seq<Event>)
    requires |connects| == Cap(Half(maxSize)) && Distinct(Successes(connects))
    requires Admissible(Init(maxSize, connects), es) && Run(Init(maxSize, connects), es).alive
    ensures Accounts(Run(Init(maxSize, connects), es)) <==> AllProper(Init(maxSize, connects), es)
  {
    var s := Init(maxSize, connects);
    InitAccounts(maxSize, connects);
    ExcessCountsStrays(s, es);
    NoStraysIsProper(s, es);
    if AllProper(s, es) {
      AccountsRun(s, es);
    }
  }

  /** What was made, and what strayed in, is idle, out, or deleted. */
  ghost predicate Conserved(s: State) {
    forall c :: s.made[c] + s.strays[c] == multiset(s.idle)[c] + Conns(s.held)[c] + s.deleted[c]
  }

  lemma {:induction false} ConservedGet(s: State, e: Event)
    requires Conserved(s) && Enabled(s, e) && e.Get?
    ensures Conserved(Apply(s, e))
  {
    if s.idle != [] {
      Front(s.idle);
    }
    if Got(s, e).Some? {
      OneMore(s.held, Hold(e.client, Got(s, e).value));
    }
  }

  lemma {:induction false} ConservedRelease(s: State, client: Tid, c: Conn)
    requires Conserved(s) && s.alive
    ensures Conserved(Apply(s, Release(client, Some(c))))
  {
    assert multiset(s.idle + [c]) == multiset(s.idle) + multiset{c};
    if Hold(client, c) in s.held {
      WithoutOne(s.held, Hold(client, c));
    }
  }

  lemma {:induction false} ConservedStep(s: State, e: Event)
    requires Conserved(s) && Enabled(s, e)
    ensures Conserved(Apply(s, e))
  {
    match e
    case Get(_, _, _) => ConservedGet(s, e);
    case Release(_, None) =>
    case Release(client, Some(c)) => ConservedRelease(s, client, c);
    case Destroy =>
  }

  lemma {:induction false} ConservedRun(s: State, es: seq<Event>)
    requires Conserved(s) && Admissible(s, es)
    ensures Conserved(Run(s, es))
    decreases |es|
  {
    hide Conserved;
    if es == [] {
    } else {
      ConservedStep(s, es[0]);
      ConservedRun(Apply(s, es[0]), es[1..]);
    }
  }

  lemma {:induction false} DeadIsEmpty(s: State, es: seq<Event>)
    requires Admissible(s, es) && s.alive && !Run(s, es).alive
    ensures Run(s, es).idle == []
    decreases |es|
  {
    if es == [] {
    } else if es[0].Destroy? {
      assert es[1..] == [];
    } else {
      DeadIsEmpty(Apply(s, es[0]), es[1..]);
    }
  }

  /** Over every run, proper or not and through the destruction: each connection the pool had opened,
      and each that strayed in, is in the list, out, or deleted, as often as it was opened or strayed
      in. After the destruction of a pool into which nothing strayed, exactly what is out is left. */
  lemma {:induction false} NothingLeaks(maxSize: int, connects: seq<Option<Conn>>, es: seq<Event>)
    requires Admissible(Init(maxSize, connects), es)
    ensures var s := Run(Init(maxSize, connects), es);
            && s.made + s.strays == multiset(s.idle) + Conns(s.held) + s.deleted
            && (!s.alive && s.strays == multiset{} ==> s.made == s.deleted + Conns(s.held))
  {
    ConservedRun(Init(maxSize, connects), es);
    var s := Run(Init(maxSize, connects), es);
    if !s.alive {
      DeadIsEmpty(Init(maxSize, connects), es);
    }
    hide Run, Admissible, Conns;
    assert s.made + s.strays == multiset(s.idle) + Conns(s.held) + s.deleted;
  }

  // ------------------------------------------------------------ order

  /** The connections that clients give back, in the order of the events. */
  function Returns(es: seq<Event>): seq<Conn> {
    if es == [] then []
    else (if es[0].Release? && es[0].conn.Some? then [es[0].conn.value] else []) + Returns(es[1..])
  }

  /** The connections that requests take from the list, to hand them out or to replace them. */
  ghost function Taken(s: State, es: seq<Event>): seq<Conn>
    requires Admissible(s, es)
    decreases |es|
  {
    if es == [] then []
    else (if es[0].Get? && s.idle != [] then [s.idle[0]] else []) + Taken(Apply(s, es[0]), es[1..])
  }

  lemma {:induction false} OrderStep(s: State, e: Event)
    requires Enabled(s, e) && !e.Destroy?
    ensures s.idle + (if e.Release? && e.conn.Some? then [e.conn.value] else [])
         == (if e.Get? && s.idle != [] then [s.idle[0]] else []) + Apply(s, e).idle
  {
    hide Without, Conns;
  }

  lemma {:induction false} OrderRun(s: State, es: seq<Event>)
    requires Admissible(s, es) && Run(s, es).alive
    ensures s.idle + Returns(es) == Taken(s, es) + Run(s, es).idle
    decreases |es|
  {
    hide Enabled, Apply;
    if es == [] {
      assert s.idle + [] == [] + s.idle;
    } else {
      var e, a, rest := es[0], Apply(s, es[0]), es[1..];
      StillAlive(s, es);
      OrderStep(s, e);
      OrderRun(a, rest);
      var p: seq<Conn> := if e.Release? && e.conn.Some? then [e.conn.value] else [];
      var d: seq<Conn> := if e.Get? && s.idle != [] then [s.idle[0]] else [];
      var ps, ds, r := Returns(rest), Taken(a, rest), Run(a, rest);
      assert Returns(es) == p + ps && Taken(s, es) == d + ds && Run(s, es) == r;
      hide *;
      Regroup(s.idle, p, d, a.idle, ps, ds, r.idle);
    }
  }

  /** Connections are used in turn, over every run of a living pool, proper or not: those connected up front
      and then those given back, in the order in which they came, are those that requests took from the list
      and then the list. */
  lemma {:induction false} FirstBackFirstOut(maxSize: int, connects: seq<Option<Conn>>, es: seq<Event>)
    requires Admissible(Init(maxSize, connects), es) && Run(Init(maxSize, connects), es).alive
    ensures var s := Init(maxSize, connects);
            Successes(connects) + Returns(es) == Taken(s, es) + Run(s, es).idle
  {
    OrderRun(Init(maxSize, connects), es);
  }

  // ------------------------------------------------------------ what clients see

  lemma {:induction false} OnceDistinct(conns: seq<Conn>)
    requires forall c :: multiset(conns)[c] <= 1
    ensures Distinct(conns)
  {
    forall i, j | 0 <= i < j < |conns| ensures conns[i] != conns[j] {
      var (a, b) := (conns[..j], conns[j..]);
      assert conns == a + b && a[i] == conns[i] && b[0] == conns[j];
      assert conns[i] in a && conns[j] in b;
      assert multiset(conns)[conns[j]] == multiset(a)[conns[j]] + multiset(b)[conns[j]];
      assert multiset(a)[conns[i]] >= 1 && multiset(b)[conns[j]] >= 1;
    }
  }

  /** Over every proper run, with any connect failures and dead connections: the counter is what is
      idle and what is out, within the cap; no connection is idle twice, out twice, or both. */
  lemma {:induction false} PoolAccounting(maxSize: int, connects: seq<Option<Conn>>, es: seq<Event>)
    requires |connects| == Cap(Half(maxSize)) && Distinct(Successes(connects))
    requires Admissible(Init(maxSize, connects), es) && AllProper(Init(maxSize, connects), es)
    requires Run(Init(maxSize, connects), es).alive
    ensures var s := Run(Init(maxSize, connects), es);
            && s.curSize == |s.idle| + |s.held| <= Cap(maxSize)
            && Distinct(s.idle)
            && (forall c | c in Conns(s.held) :: Conns(s.held)[c] == 1 && c !in s.idle)
  {
    InitAccounts(maxSize, connects);
    AccountsRun(Init(maxSize, connects), es);
    var s := Run(Init(maxSize, connects), es);
    OnceDistinct(s.idle);
    forall c | c in s.idle ensures c !in Conns(s.held) {
      assert multiset(s.idle)[c] >= 1;
    }
  }

  /** Over every proper run, with any failures of the database: a request that comes back empty
      without a connect attempt means that exactly the cap is out; and as a failure costs no
      capacity, a request whose connect attempt would succeed is refused only then. */
  lemma {:induction false} RefusedIffAllOut(maxSize: int, connects: seq<Option<Conn>>, es: seq<Event>, e: Event)
    requires |connects| == Cap(Half(maxSize)) && Distinct(Successes(connects))
    requires Admissible(Init(maxSize, connects), es) && AllProper(Init(maxSize, connects), es)
    requires Run(Init(maxSize, connects), es).alive && e.Get?
    ensures var s := Run(Init(maxSize, connects), es);
            && (Got(s, e).None? && !Connects(s, e) <==> |s.held| == Cap(maxSize))
            && (e.connect.Some? ==> (Got(s, e).None? <==> |s.held| == Cap(maxSize)))
  {
    InitAccounts(maxSize, connects);
    AccountsRun(Init(maxSize, connects), es);
  }

  /** Whoever gets a connection is its only holder, and the pool has let go of it. */
  lemma {:induction false} HeldByOne(s: State, e: Event)
    requires Accounts(s) && Enabled(s, e) && e.Get? && Got(s, e).Some?
    ensures var (c, r) := (Got(s, e).value, Apply(s, e));
            r.held == [Hold(e.client, c)] + s.held && c !in r.idle && forall h | h in s.held :: h.conn != c
  {
    var c := Got(s, e).value;
    if s.idle != [] {
      Front(s.idle);
      assert multiset(s.idle)[s.idle[0]] >= 1;
    }
    forall h | h in s.held ensures h.conn != c {
      HoldIsOut(s.held, h);
    }
  }

  /** What the pool deletes is held by no client, is deleted once, and does not stay in the list. */
  lemma {:induction false} DeletesOnlyItsOwn(s: State, e: Event)
    requires Accounts(s) && Enabled(s, e)
    ensures Distinct(Deleted(s, e))
    ensures forall c | c in Deleted(s, e) :: c !in Apply(s, e).idle
    ensures forall c, h | c in Deleted(s, e) && h in s.held :: h.conn != c
  {
    OnceDistinct(s.idle);
    assert forall c | c in Deleted(s, e) :: c in s.idle;
    forall c, h | c in s.idle && h in s.held ensures h.conn != c {
      HoldIsOut(s.held, h);
      assert multiset(s.idle)[c] >= 1;
    }
  }

  // ------------------------------------------------------------ a stray release

  /** Two clients hold one connection. */
  predicate Shared(s: State) {
    exists h, g | h in s.held && g in s.held :: h.conn == g.conn && h.client != g.client
  }

  ghost predicate EndsShared(s: State, es: seq<Event>) {
    Admissible(s, es) && Shared(Run(s, es))
  }

  lemma {:induction false} Cons(s: State, e: Event, es: seq<Event>)
    requires Enabled(s, e) && EndsShared(Apply(s, e), es)
    ensures EndsShared(s, [e] + es)
  {
    assert ([e] + es)[1..] == es;
  }

  lemma {:induction false} NoSuccesses(connects: seq<Option<Conn>>)
    requires forall i | 0 <= i < |connects| :: connects[i] == None
    ensures Successes(connects) == []
    decreases |connects|
  {
    if connects == [] {
    } else {
      NoSuccesses(connects[..|connects| - 1]);
    }
  }

  lemma {:induction false} TwoCome(s: State, c: Conn)
    requires s.alive && s.idle == [c, c] && s.held == []
    ensures EndsShared(s, [Get(1, false, None), Get(2, false, None)])
  {
    var a := Apply(s, Get(1, false, None));
    var b := Apply(a, Get(2, false, None));
    assert b.held == [Hold(2, c), Hold(1, c)];
    assert Hold(2, c) in b.held && Hold(1, c) in b.held;
    hide Enabled, Apply;
    assert EndsShared(b, []);
    Cons(a, Get(2, false, None), []);
    Cons(s, Get(1, false, None), [Get(2, false, None)] + []);
    assert [Get(1, false, None)] + ([Get(2, false, None)] + []) == [Get(1, false, None), Get(2, false, None)];
  }

  lemma {:induction false} ReleasedTwice(s: State, c: Conn, es: seq<Event>)
    requires s.alive && s.idle == [] && s.held == [Hold(0, c)]
    requires forall r: State | r.alive && r.idle == [c, c] && r.held == [] :: EndsShared(r, es)
    ensures EndsShared(s, [Release(0, Some(c))] + ([Release(0, Some(c))] + es))
  {
    hide EndsShared;
    var e := Release(0, Some(c));
    var a := Apply(s, e);
    assert a.held == [] && a.idle == [c];
    var b := Apply(a, e);
    assert b.held == [] && b.idle == [c, c];
    Cons(a, e, es);
    Cons(s, e, [e] + es);
  }

  /** In every pool that may have a connection, one that is given back twice can be handed out twice: a
      client gets it and releases it two times, and two others come. */
  lemma {:induction false} DoubleReleaseShares(maxSize: int, c: Conn) returns (es: seq<Event>)
    requires maxSize > 0
    ensures EndsShared(Init(maxSize, seq(Cap(Half(maxSize)), _ => None)), es)
    ensures forall e | e in es :: e.Get? || e == Release(0, Some(c))
  {
    NoSuccesses(seq(Cap(Half(maxSize)), _ => None));
    var s := Init(maxSize, seq(Cap(Half(maxSize)), _ => None));
    hide Successes, Without;
    var a := Apply(s, Get(0, false, Some(c)));
    assert a.alive && a.held == [Hold(0, c)] && a.idle == [];
    forall r: State | r.alive && r.idle == [c, c] && r.held == []
      ensures EndsShared(r, [Get(1, false, None), Get(2, false, None)])
    {
      TwoCome(r, c);
    }
    hide EndsShared, Apply, Enabled;
    es := [Get(1, false, None), Get(2, false, None)];
    ReleasedTwice(a, c, es);
    es := [Release(0, Some(c))] + ([Release(0, Some(c))] + es);
    Cons(s, Get(0, false, Some(c)), es);
    es := [Get(0, false, Some(c))] + es;
  }
}
