/** What becomes of well-formed requests that arrive in two parts, and of connections whose data arrives
    in any number of notifications. */
module HttpCuts {
  import opened Threads
  import opened HttpParser
  import opened HttpReaderSpec
  import P = HttpPauses
  import R = HttpReaderTheorems
  import T = HttpParserTheorems

  // ------------------------------------------------------------ well-formed requests

  lemma {:induction false} LongerThanHead(r: T.Request)
    ensures |T.RenderHead(r)| <= |T.Render(r)|
  {
  }

  lemma {:induction false} RequestSplits(r: T.Request)
    requires T.WellFormed(r)
    ensures var (p, q, n) := (|r.verb|, |r.verb| + 1 + |r.uri|, |r.verb| + |r.uri| + |r.version| + 3);
            && T.Splits(T.Render(r), 0, p, q, n)
            && T.Render(r)[n + 1..] == T.AfterRequestLine(r)
            && |T.RenderHead(r)| == n + 1 + |T.RenderHeaders(r.headers)| + 2 <= |T.Render(r)|
  {
    hide T.RenderHeaders;
    T.RenderParts(r);
    hide T.Render, T.RenderHead, T.AfterRequestLine;
    T.LineSplits(T.Render(r), r.verb, r.uri, r.version, T.AfterRequestLine(r));
    assert |T.RenderHead(r)| <= |T.Render(r)| by { LongerThanHead(r); }
  }

  // ------------------------------------------------------------ cuts before the end of the line

  /** Before the newline of its first line has come, a request is not finished. */
  lemma {:induction false} LineUnfinished(data: string, k: nat, p: nat, q: nat, n: nat)
    requires T.Splits(data, 0, p, q, n) && p < k <= n
    ensures T.Unfinished(data[..k], 0) && T.MethodBefore(data[..k], 0, p)
  {
    var d := data[..k];
    assert T.MethodBefore(d, 0, p);
    assert T.NoneOf(d, 0, "\n");
    if q < k {
      assert T.UriBetween(d, p, q);
    } else {
      assert T.NoneOf(d, p + 1, " \t");
    }
    assert T.UnfinishedAfter(d, p);
  }

  /** The head does not touch the version. */
  lemma {:induction false} VersionKept(lines: seq<string>, start: nat, f: Fields)
    ensures var h := T.HeadOutcome(lines, start, f); h.Parsed? ==> h.fields.version == f.version
  {
  }

  /** A parser that goes on from beyond the first blank finds a shorter version, if it gets that far. */
  lemma {:induction false} ShorterVersion(data: string, p: nat, q: nat, n: nat, start: nat, f: Fields)
    requires T.Splits(data, 0, p, q, n) && p < start <= |data|
    ensures var (r, o) := (ParseRequestLine(data, start, f), ParseRequestLine(data, 0, NO_FIELDS));
            r.Parsed? && o.Parsed? ==> r.fields.version != o.fields.version
  {
    T.SplitGivesParts(data, 0, p, q, n, NO_FIELDS);
    VersionKept(T.Lines(data[n + 1..]), n + 1, T.Parts(data, 0, p, q, n, NO_FIELDS));
    hide ParseRequestLine, T.HeadOutcome, T.Lines;
    if ParseRequestLine(data, start, f).Parsed? {
      var a, b, m := T.ParsedSplits(data, start, f);
      assert m == n && b > q;
      T.SplitGivesParts(data, start, a, b, m, f);
      VersionKept(T.Lines(data[m + 1..]), m + 1, T.Parts(data, start, a, b, m, f));
      assert |data[b + 1..m]| < |data[q + 1..n]|;
    }
  }

  lemma {:induction false} BeyondMethod(d: string, p: nat)
    requires T.MethodBefore(d, 0, p) && ParseRequestLine(d, 0, NO_FIELDS).Incomplete?
    ensures p < ParseRequestLine(d, 0, NO_FIELDS).start
  {
    T.FirstIsFound(d, 0, p, " \t");
    UriInBounds(d, p + 1, NO_FIELDS.(requestMethod := Copy(d, 0, p, METHOD_LEN)));
  }

  lemma {:induction false} VersionMatters(d: string, more: string)
    requires ParseRequestLine(d, 0, NO_FIELDS).Incomplete? && ParseRequestLine(d, 0, NO_FIELDS).start <= |d|
    requires var (s, o) := (ParseRequestLine(d, 0, NO_FIELDS), ParseRequestLine(d + more, 0, NO_FIELDS));
             var r := ParseRequestLine(d + more, s.start, s.fields);
             o.Parsed? && (r.Parsed? ==> r.fields.version != o.fields.version)
    ensures P.CutMatters(d, more)
  {
    hide ParseRequestLine;
    P.FeedTwo(d, more);
  }

  /** A cut between the method and the end of the first line. */
  lemma {:induction false} CutInLine(data: string, k: nat, p: nat, q: nat, n: nat)
    requires T.Splits(data, 0, p, q, n) && p < k <= n && k <= |data| && ParseRequestLine(data, 0, NO_FIELDS).Parsed?
    ensures P.CutMatters(data[..k], data[k..])
  {
    hide *;
    var d := data[..k];
    assert d + data[k..] == data;
    LineUnfinished(data, k, p, q, n);
    T.AcceptsIff(d, 0, NO_FIELDS);
    ParseInBounds(d, 0, NO_FIELDS);
    BeyondMethod(d, p);
    var s := ParseRequestLine(d, 0, NO_FIELDS);
    ShorterVersion(data, p, q, n, s.start, s.fields);
    VersionMatters(d, data[k..]);
  }

  // ------------------------------------------------------------ cuts inside the head

  lemma {:induction false} SpanOfPrefix(lines: seq<string>, k: nat)
    requires k <= |lines|
    ensures T.Span(lines[..k]) <= T.Span(lines)
    decreases k
  {
    if k == 0 {
    } else {
      assert lines[..k][1..] == lines[1..][..k - 1];
      SpanOfPrefix(lines[1..], k - 1);
    }
  }

  lemma {:induction false} EndIsKept(lines: seq<string>, more: seq<string>)
    requires T.EndOfHead(lines).Some?
    ensures T.EndOfHead(lines + more) == T.EndOfHead(lines)
  {
    var all := lines + more;
    assert all[T.EndOfHead(lines).value] == lines[T.EndOfHead(lines).value];
    assert forall k | 0 <= k < T.EndOfHead(lines).value :: all[k] == lines[k];
  }

  lemma {:induction false} SamePrefix(lines: seq<string>, more: seq<string>, before: seq<string>, last: string,
                                      rest: seq<string>)
    requires lines + more == before + [last] + rest && |before| < |lines|
    ensures lines[..|before| + 1] == before + [last]
  {
    assert lines[..|before| + 1] == (lines + more)[..|before| + 1];
    assert (before + [last] + rest)[..|before| + 1] == before + [last];
  }

  /** A beginning too short for the line that ends the head has none that does. */
  lemma {:induction false} TooShort(all: string, k: nat, before: seq<string>, last: string, rest: seq<string>)
    requires k <= |all| && T.Lines(all) == before + [last] + rest && T.EndOfHead(T.Lines(all)) == Some(|before|)
    requires k < T.Span(before + [last])
    ensures T.EndOfHead(T.Lines(all[..k])).None?
  {
    var d, more := all[..k], all[k..];
    P.LinesExtend(d, more);
    assert d + more == all;
    var lines := T.Lines(d);
    hide *;
    if T.EndOfHead(lines).Some? {
      EndIsKept(lines, T.Lines(d[T.Span(lines)..] + more));
      var end := T.EndOfHead(lines).value;
      SamePrefix(lines, T.Lines(d[T.Span(lines)..] + more), before, last, rest);
      SpanOfPrefix(lines, end + 1);
    }
  }

  lemma {:induction false} RequestLines(r: T.Request)
    requires T.WellFormed(r)
    ensures T.Lines(T.AfterRequestLine(r)) == T.HeaderLines(r.headers) + ["\r"] + T.Lines(r.body)
    ensures T.EndOfHead(T.Lines(T.AfterRequestLine(r))) == Some(|T.HeaderLines(r.headers)|)
    ensures T.Span(T.HeaderLines(r.headers) + ["\r"]) == |T.RenderHeaders(r.headers)| + 2
  {
    T.RenderedLines(r.headers, r.body);
    T.LinesFit(r.headers);
    T.HeaderLinesEnd(r.headers, T.Lines(r.body));
    hide T.Lines, T.HeaderLines, T.RenderHeaders, T.EndOfHead;
  }

  /** A beginning of rendered headers that ends before their end does not end the head. */
  lemma {:induction false} HeadersCut(r: T.Request, k: nat)
    requires T.WellFormed(r) && k < |T.RenderHeaders(r.headers)| + 2 <= |T.AfterRequestLine(r)|
    ensures T.EndOfHead(T.Lines(T.AfterRequestLine(r)[..k])).None?
  {
    hide *;
    RequestLines(r);
    TooShort(T.AfterRequestLine(r), k, T.HeaderLines(r.headers), "\r", T.Lines(r.body));
  }

  lemma {:induction false} SplitBefore(data: string, k: nat, p: nat, q: nat, n: nat)
    requires T.Splits(data, 0, p, q, n) && n < k <= |data|
    ensures T.Splits(data[..k], 0, p, q, n)
  {
  }

  lemma {:induction false} UnendedHead(d: string, p: nat, q: nat, n: nat)
    requires T.Splits(d, 0, p, q, n) && T.EndOfHead(T.Lines(d[n + 1..])).None?
    ensures ParseRequestLine(d, 0, NO_FIELDS) == Undefined
  {
    hide ParseRequestLine, T.Lines;
    T.SplitGivesParts(d, 0, p, q, n, NO_FIELDS);
  }

  lemma {:induction false} SplitInside(data: string, p: nat, q: nat, n: nat)
    requires T.Splits(data, 0, p, q, n)
    ensures p < q < n < |data|
  {
  }

  /** A request of which a part of the head is missing takes the parser outside the language's rules. */
  lemma {:induction false} HeadCutUndefined(r: T.Request, k: nat)
    requires T.WellFormed(r) && |r.verb| + |r.uri| + |r.version| + 4 <= k < |T.RenderHead(r)| && k <= |T.Render(r)|
    ensures ParseRequestLine(T.Render(r)[..k], 0, NO_FIELDS) == Undefined
  {
    hide *;
    var data, d := T.Render(r), T.Render(r)[..k];
    var p, q, n := |r.verb|, |r.verb| + 1 + |r.uri|, |r.verb| + |r.uri| + |r.version| + 3;
    RequestSplits(r);
    SplitBefore(data, k, p, q, n);
    SplitInside(data, p, q, n);
    assert d[n + 1..] == data[n + 1..][..k - (n + 1)];
    HeadersCut(r, k - (n + 1));
    UnendedHead(d, p, q, n);
  }

  lemma {:induction false} UndefinedMatters(d: string, more: string)
    requires ParseRequestLine(d, 0, NO_FIELDS) == Undefined && ParseRequestLine(d + more, 0, NO_FIELDS).Parsed?
    ensures P.CutMatters(d, more)
  {
    hide ParseRequestLine;
    P.FeedTwo(d, more);
  }

  lemma {:induction false} ParsedDoesNot(d: string, more: string)
    requires ParseRequestLine(d, 0, NO_FIELDS).Parsed?
    requires ParseRequestLine(d, 0, NO_FIELDS) == ParseRequestLine(d + more, 0, NO_FIELDS)
    ensures !P.CutMatters(d, more)
  {
    hide ParseRequestLine;
    P.FeedTwo(d, more);
  }

  /** A cut inside the body: the first part is a request of its own, with a shorter body. */
  lemma {:induction false} CutInBody(r: T.Request, k: nat)
    requires T.WellFormed(r) && |T.RenderHead(r)| <= k <= |T.Render(r)|
    ensures ParseRequestLine(T.Render(r)[..k], 0, NO_FIELDS) == ParseRequestLine(T.Render(r), 0, NO_FIELDS)
  {
    var s := r.(body := r.body[..k - |T.RenderHead(r)|]);
    assert T.RenderHead(s) == T.RenderHead(r);
    assert T.Render(s) == T.Render(r)[..k];
    T.RoundTrip(r);
    T.RoundTrip(s);
  }

  lemma {:induction false} NoBlankYet(data: string, k: nat, p: nat, q: nat, n: nat)
    requires T.Splits(data, 0, p, q, n) && k <= p
    ensures !P.Harmful(data[..k])
  {
  }

  /** A well-formed request that arrives in two parts is read as if it had come at once if and only if the
      cut comes no later than the end of its method, or after its head. */
  lemma {:induction false} RequestCutIff(r: T.Request, k: nat)
    requires T.WellFormed(r) && k <= |T.Render(r)|
    ensures !P.CutMatters(T.Render(r)[..k], T.Render(r)[k..]) <==> k <= |r.verb| || |T.RenderHead(r)| <= k
  {
    hide *;
    var data, d, more := T.Render(r), T.Render(r)[..k], T.Render(r)[k..];
    var p, q, n := |r.verb|, |r.verb| + 1 + |r.uri|, |r.verb| + |r.uri| + |r.version| + 3;
    RequestSplits(r);
    assert d + more == data;
    T.RoundTrip(r);
    if k <= p {
      NoBlankYet(data, k, p, q, n);
      P.HarmlessCut(d, more);
    } else if |T.RenderHead(r)| <= k {
      CutInBody(r, k);
      ParsedDoesNot(d, more);
    } else if k <= n {
      CutInLine(data, k, p, q, n);
    } else {
      HeadCutUndefined(r, k);
      UndefinedMatters(d, more);
    }
  }

  // ------------------------------------------------------------ on the connection

  /** What can be told of two connections; nothing of one that has left the language's rules. */
  predicate SameOutcome(c: Conn, d: Conn) {
    c.undefined == d.undefined && (!c.undefined ==> R.ViewOf(c) == R.ViewOf(d))
  }

  /** The data that each notification brings. */
  function Pieces(rss: seq<seq<Recv>>): seq<string> {
    if rss == [] then [] else [Bytes(rss[0])] + Pieces(rss[1..])
  }

  lemma {:induction false} TotalIsConcat(rss: seq<seq<Recv>>)
    ensures R.Total(rss) == P.Concat(Pieces(rss)) && |Pieces(rss)| == |rss|
  {
    if rss == [] {
    } else {
      assert Pieces(rss)[1..] == Pieces(rss[1..]);
      TotalIsConcat(rss[1..]);
    }
  }

  /** One notification is one call of the parser on what there is by then. */
  lemma {:induction false} ReadIsParse(c: Conn, rs: seq<Recv>)
    requires R.Reading(c) && c.start <= |c.data| && Offered(c, rs)
    ensures var (d, p) := (Read(c, rs), ParseRequestLine(c.data + Bytes(rs), c.start, c.fields));
            && R.ViewOf(d) == R.ViewOf(Finish(c.(data := c.data + Bytes(rs)), p))
            && (R.Reading(d) <==> p.Incomplete?)
  {
    hide ParseRequestLine;
    FillKeeps(c, rs, |rs| - 1);
    R.AllBytes(rs, c);
  }

  lemma {:induction false} FeedOne(data: string, start: nat, f: Fields, pieces: seq<string>)
    requires start <= |data| && pieces != []
    ensures var (all, p) := (data + pieces[0], ParseRequestLine(data + pieces[0], start, f));
            P.Feed(data, start, f, pieces) ==
            if |pieces| > 1 && p.Incomplete? && p.start <= |all| then P.Feed(all, p.start, p.fields, pieces[1..]) else p
    ensures var p := ParseRequestLine(data + pieces[0], start, f); p.Incomplete? ==> p.start <= |data + pieces[0]|
  {
    ParseInBounds(data + pieces[0], start, f);
    hide ParseRequestLine;
  }

  /** The connection `whole` has all the data that c is to have; cursor and fields aside, they agree. */
  predicate Ahead(c: Conn, whole: Conn, more: string) {
    R.ViewOf(whole).(start := c.start, fields := c.fields) == R.ViewOf(c).(data := c.data + more)
  }

  /** Where nothing more is read, or nothing more comes, the outcome is that of the parse. */
  lemma {:induction false} Stops(c: Conn, rs: seq<Recv>, whole: Conn, more: string)
    requires R.Reading(c) && c.start <= |c.data| && Offered(c, rs) && Ahead(c, whole, Bytes(rs) + more)
    requires R.Reading(Read(c, rs)) ==> more == ""
    ensures SameOutcome(Read(c, rs), Finish(whole, ParseRequestLine(c.data + Bytes(rs), c.start, c.fields)))
  {
    ReadIsParse(c, rs);
    hide ParseRequestLine, Read, Bytes;
    assert more == "" ==> Bytes(rs) + more == Bytes(rs);
  }

  lemma {:induction false} StaysAhead(c: Conn, rs: seq<Recv>, whole: Conn, more: string)
    requires R.Reading(c) && c.start <= |c.data| && Offered(c, rs) && Ahead(c, whole, Bytes(rs) + more)
    requires R.Reading(Read(c, rs))
    ensures var (d, p) := (Read(c, rs), ParseRequestLine(c.data + Bytes(rs), c.start, c.fields));
            && Ahead(d, whole, more) && p == Incomplete(d.start, d.fields) && d.data == c.data + Bytes(rs)
  {
    ReadIsParse(c, rs);
    hide ParseRequestLine, Read, Bytes;
    assert c.data + (Bytes(rs) + more) == c.data + Bytes(rs) + more;
  }

  /** The connection is what the parser makes of the pieces. */
  lemma {:induction false} ServeIsFeed(c: Conn, rss: seq<seq<Recv>>, whole: Conn)
    requires R.Reading(c) && c.start <= |c.data| && R.Served(c, rss) && Ahead(c, whole, R.Total(rss))
    ensures Pieces(rss) != []
    ensures SameOutcome(R.Serve(c, rss), Finish(whole, P.Feed(c.data, c.start, c.fields, Pieces(rss))))
    decreases |rss|
  {
    var rs, d := rss[0], Read(c, rss[0]);
    ReadIsParse(c, rs);
    TotalIsConcat(rss);
    FeedOne(c.data, c.start, c.fields, Pieces(rss));
    assert Pieces(rss)[1..] == Pieces(rss[1..]) && Pieces(rss)[0] == Bytes(rs);
    hide ParseRequestLine, Read, Bytes, Pieces, P.Feed, Offered, PeerCloses, Ahead, SameOutcome, Finish;
    if |rss| == 1 || !R.Reading(d) {
      assert |rss| == 1 ==> R.Total(rss[1..]) == "";
      Stops(c, rs, whole, R.Total(rss[1..]));
    } else {
      StaysAhead(c, rs, whole, R.Total(rss[1..]));
      ServeIsFeed(d, rss[1..], whole);
    }
  }

  lemma {:induction false} FinishTells(c: Conn, p: Parse, q: Parse)
    requires !c.undefined && c.stage == READ
    ensures SameOutcome(Finish(c, p), Finish(c, q)) <==> P.SameParse(p, q)
  {
  }

  /** All the data of the notifications in the buffer of a new connection at once. */
  function Whole(rss: seq<seq<Recv>>): Conn {
    ACCEPTED.(data := R.Total(rss))
  }

  /** A connection is served as if all its data had come at once if and only if the parser makes the same
      of the pieces and of the whole. */
  lemma {:induction false} ServedAsWholeIff(rss: seq<seq<Recv>>)
    requires R.Served(ACCEPTED, rss)
    ensures Pieces(rss) != []
    ensures SameOutcome(R.Serve(ACCEPTED, rss), Process(Whole(rss))) <==>
            P.SameParse(P.Feed("", 0, NO_FIELDS, Pieces(rss)), ParseRequestLine(P.Concat(Pieces(rss)), 0, NO_FIELDS))
  {
    var whole := Whole(rss);
    assert "" + R.Total(rss) == R.Total(rss);
    ServeIsFeed(ACCEPTED, rss, whole);
    TotalIsConcat(rss);
    hide R.Serve, R.Served, P.Feed, ParseRequestLine, Pieces, R.Total;
    FinishTells(whole, P.Feed("", 0, NO_FIELDS, Pieces(rss)), ParseRequestLine(whole.data, 0, NO_FIELDS));
  }

  /** However the data of a new connection is cut into notifications and chunks: as long as none of the
      pauses is harmful, the outcome is the one of having it all at once. */
  lemma {:induction false} NotificationsDoNotMatter(rss: seq<seq<Recv>>)
    requires R.Served(ACCEPTED, rss) && P.NeverHarmed("", Pieces(rss))
    ensures SameOutcome(R.Serve(ACCEPTED, rss), Process(Whole(rss)))
  {
    hide R.Serve, R.Served, P.NeverHarmed, ParseRequestLine, Process, P.Feed;
    ServedAsWholeIff(rss);
    P.CutsDoNotMatter(Pieces(rss));
  }

  lemma {:induction false} TwoPieces(rs: seq<Recv>, ss: seq<Recv>)
    ensures Pieces([rs, ss]) == [Bytes(rs), Bytes(ss)] && P.Concat(Pieces([rs, ss])) == Bytes(rs) + Bytes(ss)
  {
    hide Bytes;
    assert [rs, ss][1..] == [ss] && [ss][1..] == [];
    assert Pieces([ss]) == [Bytes(ss)] + Pieces([]);
    assert [Bytes(rs), Bytes(ss)][1..] == [Bytes(ss)] && [Bytes(ss)][1..] == [];
    assert P.Concat([Bytes(ss)]) == Bytes(ss) + P.Concat([]);
  }

  /** Two notifications are served as one would be if and only if the cut does not matter to the parser. */
  lemma {:induction false} TwoServedIff(rs: seq<Recv>, ss: seq<Recv>)
    requires R.Served(ACCEPTED, [rs, ss])
    ensures SameOutcome(R.Serve(ACCEPTED, [rs, ss]), Process(Whole([rs, ss]))) <==> !P.CutMatters(Bytes(rs), Bytes(ss))
  {
    hide R.Serve, R.Served, ParseRequestLine, Process, P.Feed, Bytes;
    ServedAsWholeIff([rs, ss]);
    TwoPieces(rs, ss);
  }

  /** A short chunk can follow any pause. */
  lemma {:induction false} ShortFollows(rs: seq<Recv>, more: string)
    requires Offered(ACCEPTED, rs) && !PeerCloses(rs) && 0 < |more| <= 4
    ensures R.Served(ACCEPTED, [rs, [Data(more), Again]]) && Bytes([Data(more), Again]) == more
  {
    var d, ss := Read(ACCEPTED, rs), [Data(more), Again];
    R.BytesOfOne(more);
    if R.Reading(d) {
      R.SizedOverNotifications(ACCEPTED, rs);
      R.SmallChunksFit(d, more);
    }
    assert [rs, ss][1..] == [ss];
    hide Read, Offered;
    assert R.Reading(d) ==> R.Served(d, [ss]);
  }

  /** The first pause of a new connection can make a difference, by what comes next, if and only if what
      came before it is harmful. */
  lemma {:induction false} PauseOfConnectionMattersIff(rs: seq<Recv>)
    requires Offered(ACCEPTED, rs) && !PeerCloses(rs)
    ensures P.Harmful(Bytes(rs)) <==>
            exists ss :: R.Served(ACCEPTED, [rs, ss])
                         && !SameOutcome(R.Serve(ACCEPTED, [rs, ss]), Process(Whole([rs, ss])))
  {
    hide P.Harmful, P.CutMatters, SameOutcome, Process, R.Serve;
    if P.Harmful(Bytes(rs)) {
      var more := P.HarmfulCut(Bytes(rs));
      var ss := [Data(more), Again];
      ShortFollows(rs, more);
      TwoServedIff(rs, ss);
    } else {
      forall ss | R.Served(ACCEPTED, [rs, ss])
        ensures SameOutcome(R.Serve(ACCEPTED, [rs, ss]), Process(Whole([rs, ss])))
      {
        P.HarmlessCut(Bytes(rs), Bytes(ss));
        TwoServedIff(rs, ss);
      }
    }
  }

  /** Any well-formed request, in two notifications: it is served as if it had come at once if and only if
      the cut comes no later than the end of its method, or after its head. */
  lemma {:induction false} RequestInTwoIff(r: T.Request, k: nat, rs: seq<Recv>, ss: seq<Recv>)
    requires T.WellFormed(r) && k <= |T.Render(r)| && R.Served(ACCEPTED, [rs, ss])
    requires Bytes(rs) == T.Render(r)[..k] && Bytes(ss) == T.Render(r)[k..]
    ensures SameOutcome(R.Serve(ACCEPTED, [rs, ss]), Process(Whole([rs, ss]))) <==>
            k <= |r.verb| || |T.RenderHead(r)| <= k
  {
    hide *;
    TwoServedIff(rs, ss);
    RequestCutIff(r, k);
  }
}
