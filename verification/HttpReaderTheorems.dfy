/** Buffer arithmetic, and reading in pieces. */
module HttpReaderTheorems {
  import opened Threads
  import opened HttpParser
  import opened HttpReaderSpec
  import T = HttpParserTheorems

  // ------------------------------------------------------------ buffer growth

  /** Holds of a connection that is still reading. Since the last reallocation, or the start, 1024
      bytes were free, so what has been used up of them has been received since. */
  ghost predicate Sized(c: Conn) {
    && |c.data| + c.remain == c.capacity
    && c.remain <= 1024
    && |c.data| == c.received
    && 513 * c.reallocs + (1024 - c.remain) <= c.received
  }

  /** At every call of recv the space offered is what is left of the allocation, between 512 and 1024
      bytes, so recv never returns zero for want of space; the allocation never shrinks and is at
      most 1024 bytes more than was received, and each reallocation was paid for by 513 bytes. */
  lemma {:induction false} GrowthAtRecv(c: Conn, rs: seq<Recv>, k: nat)
    requires Sized(c) && Offered(c, rs) && k < |rs|
    ensures var e := AtRecv(c, rs, k);
            && Sized(e)
            && |e.data| + e.remain == e.capacity
            && 512 <= e.remain <= 1024
            && c.capacity <= e.capacity <= e.received + 1024
            && 513 * e.reallocs <= e.received
            && (e.received <= 0x7FFF_FFFF - 1024 ==> e.capacity <= 0x7FFF_FFFF)
    decreases |rs|
  {
    if k == 0 {
    } else {
      GrowthAtRecv(Append(Enlarge(c), rs[0].bytes), rs[1..], k - 1);
    }
  }

  /** Whatever recv offers, a chunk of up to 512 bytes always fits. */
  lemma {:induction false} SmallChunksFit(c: Conn, bytes: string)
    requires Sized(c) && 0 < |bytes| <= 512
    ensures Offered(c, [Data(bytes), Again])
  {
    var e := Append(Enlarge(c), bytes);
    assert [Data(bytes), Again][1..] == [Again] && Offered(e, [Again]);
  }

  // ------------------------------------------------------------ reading in pieces

  /** The connection is still reading, within the language's rules. */
  predicate Reading(c: Conn) {
    c.stage == READ && !c.undefined
  }

  /** The notifications of one connection, none of them ended by the peer. Only those that come while the
      connection is reading are served; what is left of the data when it has stopped is not looked at. */
  predicate Served(c: Conn, rss: seq<seq<Recv>>)
    requires c.start <= |c.data|
    decreases |rss|
  {
    rss != [] && Offered(c, rss[0]) && !PeerCloses(rss[0])
    && (|rss| > 1 && Reading(Read(c, rss[0])) ==> Served(Read(c, rss[0]), rss[1..]))
  }

  function Serve(c: Conn, rss: seq<seq<Recv>>): Conn
    requires c.start <= |c.data| && Served(c, rss)
    decreases |rss|
  {
    var d := Read(c, rss[0]);
    if |rss| == 1 || !Reading(d) then d else Serve(d, rss[1..])
  }

  function Total(rss: seq<seq<Recv>>): string {
    if rss == [] then "" else Bytes(rss[0]) + Total(rss[1..])
  }

  /** Everything about a connection but how its buffer was allocated. */
  datatype View = View(stage: Stage, onRead: Handler, onWrite: Handler, data: string, start: nat,
                       fields: Fields, undefined: bool)

  function ViewOf(c: Conn): View {
    View(c.stage, c.onRead, c.onWrite, c.data, c.start, c.fields, c.undefined)
  }

  /** The last result of a notification carries no bytes. */
  lemma {:induction false} AllBytes(rs: seq<Recv>, c: Conn)
    requires Offered(c, rs)
    ensures Bytes(rs[..|rs| - 1]) == Bytes(rs)
    decreases |rs|
  {
    if |rs| > 1 {
      AllBytes(rs[1..], Append(Enlarge(c), rs[0].bytes));
      assert rs[..|rs| - 1][1..] == rs[1..][..|rs| - 2];
    } else {
      assert rs[..0] == [] && rs[1..] == [];
    }
  }

  lemma {:induction false} ProcessMoves(c: Conn)
    requires c.start == 0 && c.stage == READ && !c.undefined
    ensures Process(c) == c <==> Find(c.data, 0, " \t").None?
    ensures ViewOf(Process(c)) == ViewOf(c) <==> Find(c.data, 0, " \t").None?
  {
    hide Find, ParseUri;
    var p := Find(c.data, 0, " \t");
    if p.Some? {
      var f := c.fields.(requestMethod := Copy(c.data, 0, p.value, METHOD_LEN));
      UriInBounds(c.data, p.value + 1, f);
    }
  }

  /** A pause leaves cursor and fields alone exactly when no space or tab has arrived. */
  lemma {:induction false} PauseHarmlessIff(c: Conn, rs: seq<Recv>)
    requires Offered(c, rs) && c.start == 0 && c.stage == READ && !c.undefined
    ensures ViewOf(Read(c, rs)) == ViewOf(c).(data := c.data + Bytes(rs)) <==> T.NoneOf(c.data + Bytes(rs), 0, " \t")
  {
    FillKeeps(c, rs, |rs| - 1);
    AllBytes(rs, c);
    var data := c.data + Bytes(rs);
    T.FindIsFirst(data, 0, " \t");
    ProcessMoves(Fill(c, rs));
  }

  /** Two buffers with the same bytes and cursor are processed alike. */
  lemma {:induction false} ProcessSeesView(c: Conn, d: Conn)
    requires ViewOf(c) == ViewOf(d) && c.start <= |c.data|
    ensures ViewOf(Process(c)) == ViewOf(Process(d))
  {
    hide ParseRequestLine;
  }

  lemma {:induction false} FirstPause(c: Conn, rss: seq<seq<Recv>>)
    requires |rss| > 1 && T.NoneOf(c.data + Total(rss[..|rss| - 1]), 0, " \t")
    ensures T.NoneOf(c.data + Bytes(rss[0]), 0, " \t")
    ensures c.data + Total(rss[..|rss| - 1]) == c.data + Bytes(rss[0]) + Total(rss[1..][..|rss| - 2])
  {
    var front := rss[..|rss| - 1];
    assert front[0] == rss[0] && front[1..] == rss[1..][..|rss| - 2];
    var all := c.data + Total(front);
    assert all == c.data + Bytes(rss[0]) + Total(front[1..]);
    assert forall i | 0 <= i < |c.data + Bytes(rss[0])| :: (c.data + Bytes(rss[0]))[i] == all[i];
  }

  /** However a request is cut into notifications and chunks, with the buffer growing anywhere, the
      outcome is the one of having it all in the buffer at once, provided that every notification but
      the last ended before the first space or tab. */
  lemma {:induction false} ChunkingIrrelevant(c: Conn, rss: seq<seq<Recv>>, whole: Conn)
    requires c.start == 0 && c.stage == READ && !c.undefined && Served(c, rss)
    requires T.NoneOf(c.data + Total(rss[..|rss| - 1]), 0, " \t")
    requires ViewOf(whole) == ViewOf(c).(data := c.data + Total(rss))
    ensures ViewOf(Serve(c, rss)) == ViewOf(Process(whole))
    decreases |rss|
  {
    hide Find, ParseRequestLine, Process;
    var rs := rss[0];
    FillKeeps(c, rs, |rs| - 1);
    AllBytes(rs, c);
    if |rss| == 1 {
      assert rss[1..] == [] && Total(rss) == Bytes(rs);
      ProcessSeesView(Fill(c, rs), whole);
    } else {
      var d := Read(c, rs);
      FirstPause(c, rss);
      PauseHarmlessIff(c, rs);
      assert rss[..|rss| - 1][1..] == rss[1..][..|rss| - 2];
      assert c.data + Total(rss) == d.data + Total(rss[1..]);
      ChunkingIrrelevant(d, rss[1..], whole);
    }
  }

  /** So two ways of cutting the same bytes cannot be told apart. */
  lemma {:induction false} TwoCutsAgree(rss: seq<seq<Recv>>, sss: seq<seq<Recv>>)
    requires Served(ACCEPTED, rss) && Served(ACCEPTED, sss) && Total(rss) == Total(sss)
    requires T.NoneOf(Total(rss[..|rss| - 1]), 0, " \t") && T.NoneOf(Total(sss[..|sss| - 1]), 0, " \t")
    ensures ViewOf(Serve(ACCEPTED, rss)) == ViewOf(Serve(ACCEPTED, sss))
  {
    var whole := ACCEPTED.(data := Total(rss));
    assert ACCEPTED.data + Total(rss) == Total(rss) && ACCEPTED.data + Total(sss) == Total(sss);
    assert ACCEPTED.data + Total(rss[..|rss| - 1]) == Total(rss[..|rss| - 1]);
    assert ACCEPTED.data + Total(sss[..|sss| - 1]) == Total(sss[..|sss| - 1]);
    ChunkingIrrelevant(ACCEPTED, rss, whole);
    ChunkingIrrelevant(ACCEPTED, sss, whole);
  }

  /** A well-formed request, cut up under the same proviso, leaves the connection ready to answer,
      with everything the request said in its fields. */
  lemma {:induction false} RequestIsServed(r: T.Request, rss: seq<seq<Recv>>)
    requires T.WellFormed(r) && Served(ACCEPTED, rss) && Total(rss) == T.Render(r)
    requires T.NoneOf(Total(rss[..|rss| - 1]), 0, " \t")
    ensures var c := Serve(ACCEPTED, rss);
            && c.stage == SEND_DATA && c.onRead == EmptyHandler && c.onWrite == SendResponse && !c.undefined
            && c.fields == Fields(Some(r.verb), Some(r.uri), Some(r.version + "\r"),
                                  T.LastHeader(r.headers, "host"), T.LastHeader(r.headers, "accept"),
                                  T.LastHeader(r.headers, "connection"))
  {
    hide T.Render, T.RenderHead, T.WellFormed, T.LastHeader, ParseRequestLine, Serve, Total;
    T.RoundTrip(r);
    var whole := ACCEPTED.(data := T.Render(r));
    assert ACCEPTED.data + Total(rss) == Total(rss);
    assert ACCEPTED.data + Total(rss[..|rss| - 1]) == Total(rss[..|rss| - 1]);
    ChunkingIrrelevant(ACCEPTED, rss, whole);
  }

  function SmallRequest(): T.Request {
    T.Request("G", "u", "v", [], "")
  }

  function Verb(): string { "G " }

  function Rest(): string { "u v\r\n\r\n" }

  function Unlucky(): seq<seq<Recv>> {
    [[Data(Verb()), Again], [Data(Rest()), Again]]
  }

  lemma {:induction false} SmallRendered()
    ensures var r := SmallRequest();
            T.WellFormed(r) && T.Render(r) == Verb() + Rest() && Some("u") == Some(r.uri) != Some(r.verb)
  {
    assert T.RenderHeaders([]) == "";
    assert T.RenderHead(SmallRequest()) == Verb() + Rest();
  }

  lemma {:induction false} BytesOfOne(bytes: string)
    ensures Bytes([Data(bytes), Again]) == bytes
  {
    var rs := [Data(bytes), Again];
    assert rs[1..] == [Again] && [Again][1..] == [] && Bytes([Again]) == "" + Bytes([]);
  }

  lemma {:induction false} TwoNotifications(rs: seq<Recv>, ss: seq<Recv>)
    requires Offered(ACCEPTED, rs) && !PeerCloses(rs) && !PeerCloses(ss)
    requires var c := Read(ACCEPTED, rs); c.stage == READ && !c.undefined && Offered(c, ss)
    ensures Served(ACCEPTED, [rs, ss]) && Serve(ACCEPTED, [rs, ss]) == Read(Read(ACCEPTED, rs), ss)
    ensures Total([rs, ss]) == Bytes(rs) + Bytes(ss)
  {
    hide Offered, Read, Bytes;
    var c := Read(ACCEPTED, rs);
    assert [rs, ss][1..] == [ss] && [ss][1..] == [];
    assert Total([ss]) == Bytes(ss) + Total([]);
    assert Served(c, [ss]) && Serve(c, [ss]) == Read(c, ss);
  }

  lemma {:induction false} OneChunk(c: Conn, bytes: string)
    requires Sized(c) && 0 < |bytes| <= 512
    ensures var rs := [Data(bytes), Again];
            Offered(c, rs) && Fill(c, rs).data == c.data + bytes
  {
    var rs := [Data(bytes), Again];
    SmallChunksFit(c, bytes);
    FillKeeps(c, rs, 1);
    assert rs[..1] == [Data(bytes)] && [Data(bytes)][1..] == [] && Bytes([Data(bytes)]) == bytes + Bytes([]);
  }

  lemma {:induction false} AfterVerb() returns (c: Conn)
    ensures Offered(ACCEPTED, [Data(Verb()), Again]) && !PeerCloses([Data(Verb()), Again])
    ensures c == Read(ACCEPTED, [Data(Verb()), Again])
    ensures c.stage == READ && !c.undefined && c.data == "G " && c.start == 2 && Sized(c)
  {
    var rs := [Data(Verb()), Again];
    OneChunk(ACCEPTED, Verb());
    FillKeeps(ACCEPTED, rs, 1);
    GrowthAtRecv(ACCEPTED, rs, 1);
    c := Read(ACCEPTED, rs);
    assert Fill(ACCEPTED, rs).data == Verb();
    T.FindPast("G", ' ', "", 0, " \t");
    assert "G"[0..] == "G" && "G" + [' '] + "" == "G ";
  }

  lemma {:induction false} AfterRest(c: Conn) returns (d: Conn)
    requires c.stage == READ && !c.undefined && c.data == "G " && c.start == 2 && Sized(c)
    ensures Offered(c, [Data(Rest()), Again]) && !PeerCloses([Data(Rest()), Again])
    ensures d == Read(c, [Data(Rest()), Again])
    ensures d.stage == READ && d.fields.requestMethod == Some("u")
  {
    var rs := [Data(Rest()), Again];
    OneChunk(c, Rest());
    FillKeeps(c, rs, 1);
    d := Read(c, rs);
    var data := Fill(c, rs).data;
    assert data == "G u" + [' '] + "v\r\n\r\n";
    assert "G u"[2..] == "u";
    T.FindPast("G u", ' ', "v\r\n\r\n", 2, " \t");
    assert data[2..3] == "u";
    T.FindIsFirst(data, 4, " \t");
  }

  /** The proviso is needed: a pause just after the first space makes the next notification take the
      URI for the method and then wait for ever for a space that does not come. */
  lemma {:induction false} PauseAfterSpaceMisreads()
    ensures T.WellFormed(SmallRequest()) && Served(ACCEPTED, Unlucky()) && Total(Unlucky()) == T.Render(SmallRequest())
    ensures var c := Serve(ACCEPTED, Unlucky());
            c.stage == READ && c.fields.requestMethod == Some(SmallRequest().uri) != Some(SmallRequest().verb)
  {
    SmallRendered();
    assert Unlucky() == [[Data(Verb()), Again], [Data(Rest()), Again]];
    hide *;
    var c := AfterVerb();
    var d := AfterRest(c);
    TwoNotifications([Data(Verb()), Again], [Data(Rest()), Again]);
    BytesOfOne(Verb());
    BytesOfOne(Rest());
  }

  /** As long as a connection keeps reading, its buffer stays in order from one notification to the
      next. */
  lemma {:induction false} SizedOverNotifications(c: Conn, rs: seq<Recv>)
    requires Sized(c) && Offered(c, rs) && c.start <= |c.data| && c.stage == READ
    ensures Read(c, rs).stage == READ ==> Sized(Read(c, rs))
  {
    hide ParseRequestLine;
    FillKeeps(c, rs, |rs| - 1);
    GrowthAtRecv(c, rs, |rs| - 1);
  }
}
