/** The pool object. What the database answers is passed in. */
module ConnPoolMonitor {
  import opened Threads
  import Spec = ConnPoolSpec

  class ConnPool {
    var curSize: int
    var maxSize: int
    var connList: seq<Spec.Conn>
    ghost var held: seq<Spec.Hold>
    ghost var alive: bool
    ghost var made: multiset<Spec.Conn>
    ghost var deleted: multiset<Spec.Conn>
    ghost var strays: multiset<Spec.Conn>

    ghost function S(): Spec.State
      reads this
    {
      Spec.State(maxSize, connList, curSize, held, alive, made, deleted, strays)
    }

    /** Half of the cap is connected up front; a failed attempt is skipped. */
    constructor (maxSize: int, connects: seq<Option<Spec.Conn>>)
      requires |connects| == Spec.Cap(Spec.Half(maxSize))
      ensures S() == Spec.Init(maxSize, connects)
      ensures curSize == |connList|
      ensures maxSize >= 0 ==> 2 * |connects| <= maxSize <= 2 * |connects| + 1
      ensures maxSize < 0 ==> connects == []
    {
      hide Spec.Successes, Spec.Conns;
      this.maxSize, this.curSize := maxSize, 0;
      connList, held, alive := [], [], true;
      made, deleted, strays := multiset(Spec.Successes(connects)), multiset{}, multiset{};
      new;
      InitConnection(Spec.Half(maxSize), connects);
    }

    method InitConnection(iInitialSize: int, connects: seq<Option<Spec.Conn>>)
      requires |connects| == Spec.Cap(iInitialSize)
      modifies this`connList, this`curSize
      ensures connList == old(connList) + Spec.Successes(connects)
      ensures curSize == old(curSize) + |Spec.Successes(connects)|
    {
      var i := 0;
      while i < iInitialSize
        invariant 0 <= i <= |connects|
        invariant connList == old(connList) + Spec.Successes(connects[..i])
        invariant curSize == old(curSize) + |Spec.Successes(connects[..i])|
      {
        assert connects[..i + 1][..i] == connects[..i];
        var conn := connects[i];
        if conn.Some? {
          connList, curSize := connList + [conn.value], curSize + 1;
        }
        i := i + 1;
      }
      assert connects[..i] == connects;
    }

    method GetConnection(ghost client: Tid, isClosed: bool, connect: Option<Spec.Conn>)
      returns (con: Option<Spec.Conn>)
      requires Spec.Enabled(S(), Spec.Get(client, isClosed, connect))
      modifies this`connList, this`curSize, this`held, this`made, this`deleted
      ensures con == Spec.Got(old(S()), Spec.Get(client, isClosed, connect))
      ensures S() == Spec.Apply(old(S()), Spec.Get(client, isClosed, connect))
      ensures if old(connList) != [] then
                && connList == old(connList)[1..] && con == (if isClosed then connect else Some(old(connList)[0]))
                && curSize == (if con.None? then old(curSize) - 1 else old(curSize))
              else
                && connList == [] && con == (if old(curSize) < maxSize then connect else None)
                && curSize == (if con.Some? then old(curSize) + 1 else old(curSize))
    {
      hide Spec.NextHeld, Spec.NextMade, Spec.NextDeleted;
      ghost var s, e := S(), Spec.Get(client, isClosed, connect);
      if |connList| > 0 {
        con, connList := Some(connList[0]), connList[1..];
        if isClosed {
          con := connect;
        }
        if con.None? {
          curSize := curSize - 1;
        }
      } else if curSize < maxSize {
        con := connect;
        if con.Some? {
          curSize := curSize + 1;
        }
      } else {
        con := None;
      }
      held, made, deleted := Spec.NextHeld(s, client, con), Spec.NextMade(s, e, con), Spec.NextDeleted(s, isClosed);
    }

    method ReleaseConnection(ghost client: Tid, conn: Option<Spec.Conn>)
      requires alive
      modifies this`connList, this`held, this`strays
      ensures S() == Spec.Apply(old(S()), Spec.Release(client, conn))
      ensures connList == if conn.Some? then old(connList) + [conn.value] else old(connList)
    {
      if conn.Some? {
        connList := connList + [conn.value];
        ghost var h := Spec.Hold(client, conn.value);
        if h in held {
          held := Spec.Without(held, h);
        } else {
          strays := strays + multiset{conn.value};
        }
      }
    }

    /** What the destructor does. Returns what it deleted, in order. */
    method DestoryConnPool() returns (gone: seq<Spec.Conn>)
      requires alive
      modifies this`connList, this`curSize, this`alive, this`deleted
      ensures gone == Spec.Deleted(old(S()), Spec.Destroy)
      ensures S() == Spec.Apply(old(S()), Spec.Destroy)
      ensures gone == old(connList) && connList == [] && curSize == 0
    {
      gone := [];
      for icon := 0 to |connList|
        invariant gone == connList[..icon]
        invariant connList == old(connList)
      {
        gone := gone + [connList[icon]];
      }
      deleted, alive := deleted + multiset(gone), false;
      curSize, connList := 0, [];
    }
  }
}
