/** One client connection: the receive buffer with its growth, the reading of a request, and the
    handlers and stage that the event loop goes by. */
module HttpReaderSpec {
  import opened HttpParser
  const QUERY_INIT_LEN: nat := 1024
  const REMAIN_BUFFER: nat := 512

  datatype Stage = ACCEPT | READ | SEND_DATA

  datatype Handler = Unset | WebAccept | ReadRequest | EmptyHandler | SendResponse

  datatype Conn = Conn(
    stage: Stage,
    onRead: Handler,
    onWrite: Handler,
    data: string,        // the buffer up to query_end_index
    start: nat,          // query_start_index
    remain: nat,         // query_remain_len
    capacity: nat,       // bytes allocated
    fields: Fields,
    undefined: bool,     // the parser has left the language's rules
    received: nat,       // history: bytes received
    reallocs: nat)       // history: times the buffer was reallocated

  /** initConnection. */
  const NEW_CONN := Conn(ACCEPT, Unset, Unset, "", 0, QUERY_INIT_LEN, QUERY_INIT_LEN, NO_FIELDS, false, 0, 0)

  /** What web_accept makes of it. */
  const ACCEPTED := NEW_CONN.(stage := READ, onRead := ReadRequest)

  /** One result of recv: some bytes, nothing more for now, or the end of the stream. */
  datatype Recv = Data(bytes: string) | Again | Closed

  function Enlarge(c: Conn): Conn {
    if c.remain < REMAIN_BUFFER then
      c.(capacity := |c.data| + QUERY_INIT_LEN, remain := QUERY_INIT_LEN, reallocs := c.reallocs + 1)
    else c
  }

  function Append(c: Conn, bytes: string): Conn
    requires |bytes| <= c.remain
  {
    c.(data := c.data + bytes, remain := c.remain - |bytes|, received := c.received + |bytes|)
  }

  /** The results that a socket can give to the calls of recv in one notification: chunks that fit
      the space offered, then the one result that ends the loop. */
  predicate Offered(c: Conn, rs: seq<Recv>)
    decreases |rs|
  {
    rs != [] &&
    match rs[0]
    case Data(bytes) => 0 < |bytes| <= Enlarge(c).remain && Offered(Append(Enlarge(c), bytes), rs[1..])
    case _ => |rs| == 1
  }

  /** The connection when it calls recv for the k-th time, or when the loop ends. */
  function AtRecv(c: Conn, rs: seq<Recv>, k: nat): Conn
    requires Offered(c, rs) && k < |rs|
    decreases |rs|
  {
    if k == 0 then Enlarge(c) else AtRecv(Append(Enlarge(c), rs[0].bytes), rs[1..], k - 1)
  }

  function Fill(c: Conn, rs: seq<Recv>): Conn
    requires Offered(c, rs)
  {
    AtRecv(c, rs, |rs| - 1)
  }

  predicate PeerCloses(rs: seq<Recv>) {
    rs != [] && rs[|rs| - 1].Closed?
  }

  /** What a parse makes of the connection; process_body when the head is complete. */
  function Finish(c: Conn, p: Parse): Conn {
    match p
    case Incomplete(start, f) => c.(start := start, fields := f)
    case Undefined => c.(undefined := true)
    case Parsed(_, f) =>
      c.(start := 0, data := "", fields := f, stage := SEND_DATA, onWrite := SendResponse, onRead := EmptyHandler)
  }

  /** process_request_line on the buffer. */
  function Process(c: Conn): Conn
    requires c.start <= |c.data|
  {
    Finish(c, ParseRequestLine(c.data, c.start, c.fields))
  }

  function Bytes(rs: seq<Recv>): string {
    if rs == [] then ""
    else (if rs[0].Data? then rs[0].bytes else "") + Bytes(rs[1..])
  }

  /** Receiving touches the buffer only, and adds to it exactly the bytes received so far. */
  lemma {:induction false} FillKeeps(c: Conn, rs: seq<Recv>, k: nat)
    requires Offered(c, rs) && k < |rs|
    ensures var e := AtRecv(c, rs, k);
            && e.data == c.data + Bytes(rs[..k])
            && e.start == c.start && e.fields == c.fields && e.stage == c.stage
            && e.onRead == c.onRead && e.onWrite == c.onWrite && e.undefined == c.undefined
            && e.received == c.received + |Bytes(rs[..k])|
    decreases |rs|
  {
    if k == 0 {
      assert rs[..0] == [];
    } else {
      FillKeeps(Append(Enlarge(c), rs[0].bytes), rs[1..], k - 1);
      assert rs[..k][0] == rs[0] && rs[..k][1..] == rs[1..][..k - 1];
    }
  }

  ghost predicate HeadInBounds(data: string, start: nat, f: Fields)
    requires start <= |data|
  {
    var p := ParseHead(data, start, f);
    !p.Incomplete? && (p.Parsed? ==> p.start <= |data|)
  }

  lemma {:induction false} HeadBounds(data: string, start: nat, f: Fields)
    requires start <= |data|
    ensures HeadInBounds(data, start, f)
    decreases |data| - start
  {
    var end := Find(data, start, "\n");
    if end.Some? {
      var g := HeaderLine(data, start, end.value - start, f);
      if g.Some? {
        HeadBounds(data, end.value + 1, g.value);
      }
    }
  }

  lemma {:induction false} UriInBounds(data: string, start: nat, f: Fields)
    requires start <= |data|
    ensures var p := ParseUri(data, start, f);
            && (p.Incomplete? ==> start <= p.start <= |data|)
            && (p.Parsed? ==> p.start <= |data|)
  {
    var q, n := Find(data, start, " \t"), Find(data, 0, "\n");
    if q.Some? && n.Some? {
      var g := f.(uri := Copy(data, start, q.value - start, URI_LEN));
      var c := Copy(data, q.value + 1, n.value - (q.value + 1), VERSION_LEN);
      HeadBounds(data, n.value + 1, g.(version := c));
    }
  }

  lemma {:induction false} ParseInBounds(data: string, start: nat, f: Fields)
    requires start <= |data|
    ensures var p := ParseRequestLine(data, start, f);
            && (p.Incomplete? ==> start <= p.start <= |data|)
            && (p.Parsed? ==> p.start <= |data|)
  {
    var p := Find(data, start, " \t");
    if p.Some? {
      var c := Copy(data, start, p.value - start, METHOD_LEN);
      UriInBounds(data, p.value + 1, f.(requestMethod := c));
    }
  }

  /** read_request in a notification that the peer does not end by closing. */
  function Read(c: Conn, rs: seq<Recv>): (r: Conn)
    requires Offered(c, rs) && c.start <= |c.data|
    ensures r.start <= |r.data|
  {
    FillKeeps(c, rs, |rs| - 1);
    ParseInBounds(Fill(c, rs).data, Fill(c, rs).start, Fill(c, rs).fields);
    Process(Fill(c, rs))
  }
}
