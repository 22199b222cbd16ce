/** The connection object, with its buffer updated in place and its cursor moved step by step. Every
    method is proved to have the effect that HttpReaderSpec and HttpParser say. */
module HttpReader {
  import opened Threads
  import opened HttpParser
  import Spec = HttpReaderSpec
  import T = HttpParserTheorems

  class WebConnection {
    var querybuf: array<char>
    var query_start_index: nat
    var query_end_index: nat
    var query_remain_len: nat
    var fields: Fields
    var state: Spec.Stage
    var readHandler: Spec.Handler
    var writeHandler: Spec.Handler
    var undefined: bool
    ghost var received: nat
    ghost var reallocs: nat

    ghost predicate Valid()
      reads this
    {
      && query_start_index <= query_end_index
      && query_end_index + query_remain_len <= querybuf.Length
    }

    ghost function S(): Spec.Conn
      reads this, querybuf
      requires Valid()
    {
      Spec.Conn(state, readHandler, writeHandler, querybuf[..query_end_index], query_start_index,
                query_remain_len, querybuf.Length, fields, undefined, received, reallocs)
    }

    /** initConnection. */
    constructor ()
      ensures Valid() && fresh(querybuf) && S() == Spec.NEW_CONN
      ensures querybuf.Length == 1024 == query_remain_len && query_start_index == 0 == query_end_index
      ensures state == Spec.ACCEPT && readHandler == Spec.Unset == writeHandler
    {
      querybuf := new char[1024];
      query_start_index, query_end_index, query_remain_len := 0, 0, 1024;
      fields, undefined := NO_FIELDS, false;
      state, readHandler, writeHandler := Spec.ACCEPT, Spec.Unset, Spec.Unset;
      received, reallocs := 0, 0;
    }

    method TryToEnlargeBuffer()
      requires Valid()
      modifies this`querybuf, this`query_remain_len, this`reallocs
      ensures Valid() && S() == Spec.Enlarge(old(S()))
      ensures querybuf == old(querybuf) || fresh(querybuf)
      ensures querybuf[..query_end_index] == old(querybuf[..query_end_index])
      ensures if old(query_remain_len) < 512
              then querybuf.Length == query_end_index + 1024 && query_remain_len == 1024
              else querybuf == old(querybuf) && query_remain_len == old(query_remain_len)
    {
      if query_remain_len < 512 {
        var new_size := query_end_index + 1024;
        var bigger := new char[new_size];
        forall i | 0 <= i < query_end_index {
          bigger[i] := querybuf[i];
        }
        assert bigger[..query_end_index] == querybuf[..query_end_index];
        querybuf, reallocs := bigger, reallocs + 1;
        query_remain_len := new_size - query_end_index;
      }
    }

    /** recv has put the bytes into the free part of the buffer. */
    method Receive(bytes: string)
      requires Valid() && |bytes| <= query_remain_len
      modifies this`query_end_index, this`query_remain_len, this`received, querybuf
      ensures Valid() && S() == Spec.Append(old(S()), bytes)
      ensures querybuf[..query_end_index] == old(querybuf[..query_end_index]) + bytes
      ensures query_remain_len == old(query_remain_len) - |bytes|
    {
      ghost var before := querybuf[..query_end_index];
      forall i | 0 <= i < |bytes| {
        querybuf[query_end_index + i] := bytes[i];
      }
      query_end_index, query_remain_len := query_end_index + |bytes|, query_remain_len - |bytes|;
      received := received + |bytes|;
      assert querybuf[..query_end_index] == before + bytes;
    }

    /** read_request, up to the end of its loop: `rs` is what recv will answer. */
    method ReceiveAll(rs: seq<Spec.Recv>) returns (closed: bool)
      requires Valid() && Spec.Offered(S(), rs)
      modifies this`querybuf, this`query_end_index, this`query_remain_len, this`received, this`reallocs, querybuf
      ensures Valid() && S() == Spec.Fill(old(S()), rs)
      ensures querybuf == old(querybuf) || fresh(querybuf)
      ensures closed <==> Spec.PeerCloses(rs)
    {
      var k := 0;
      while true
        invariant 0 <= k < |rs| && Valid() && Spec.Offered(S(), rs[k..])
        invariant Spec.Fill(S(), rs[k..]) == Spec.Fill(old(S()), rs)
        invariant querybuf == old(querybuf) || fresh(querybuf)
        decreases |rs| - k
      {
        ghost var c, rest := S(), rs[k..];
        TryToEnlargeBuffer();
        match rs[k]
        case Again => return false;
        case Closed => return true;
        case Data(bytes) =>
          Receive(bytes);
          assert rest[1..] == rs[k + 1..];
          k := k + 1;
      }
    }

    /** strpbrk on the received bytes. */
    method Strpbrk(from: nat, chars: string) returns (r: Option<nat>)
      requires Valid() && from <= query_end_index
      ensures r == Find(querybuf[..query_end_index], from, chars)
    {
      ghost var data := querybuf[..query_end_index];
      var i := from;
      while i < query_end_index
        invariant from <= i <= query_end_index && Find(data, from, chars) == Find(data, i, chars)
      {
        if querybuf[i] in chars {
          return Some(i);
        }
        i := i + 1;
      }
      r := None;
    }

    /** strncasecmp with a literal that has no capitals. */
    method Strncasecmp(from: nat, lit: string) returns (equal: bool)
      requires Valid() && from <= query_end_index && forall k | 0 <= k < |lit| :: !('A' <= lit[k] <= 'Z')
      ensures equal == Matches(querybuf[..query_end_index], from, lit)
      ensures equal <==> from + |lit| <= query_end_index
                         && forall k | 0 <= k < |lit| :: T.SameLetter(querybuf[from + k], lit[k])
    {
      forall k | 0 <= k < |lit| && from + k < query_end_index
        ensures Lower(querybuf[from + k]) == lit[k] <==> T.SameLetter(querybuf[from + k], lit[k])
      {
        T.FoldedIs(querybuf[from + k], lit[k]);
      }
      hide Lower, T.SameLetter;
      var k := 0;
      while k < |lit|
        invariant 0 <= k <= |lit| && from + k <= query_end_index
        invariant forall j | 0 <= j < k :: Lower(querybuf[from + j]) == lit[j]
      {
        if from + k == query_end_index || Lower(querybuf[from + k]) != lit[k] {
          return false;
        }
        k := k + 1;
      }
      equal := true;
    }

    /** strncpy into a field with the given room; None when that leaves the language's rules. */
    method Strncpy(from: nat, len: int, room: nat) returns (c: Option<string>)
      requires Valid() && from + len <= query_end_index
      ensures c == Copy(querybuf[..query_end_index], from, len, room)
    {
      if 0 <= len <= room {
        c := Some(querybuf[from..from + len]);
        assert querybuf[from..from + len] == querybuf[..query_end_index][from..from + len];
      } else {
        c := None;
      }
    }

    /** One header line of the head loop. */
    method CopyHeader(len: nat) returns (ok: bool)
      requires Valid() && query_start_index + len <= query_end_index
      modifies this`fields
      ensures var h := HeaderLine(querybuf[..query_end_index], query_start_index, len, old(fields));
              ok == h.Some? && (ok ==> fields == h.value)
    {
      var start := query_start_index;
      ok := true;
      var c: Option<string>;
      var host := Strncasecmp(start, "host:");
      if host {
        c := Strncpy(start + 6, len - 6, 128);
        if c.None? { return false; }
        fields := fields.(host := c);
        return;
      }
      var accept := Strncasecmp(start, "accept:");
      if accept {
        c := Strncpy(start + 8, len - 8, 128);
        if c.None? { return false; }
        fields := fields.(accept := c);
        return;
      }
      var connection := Strncasecmp(start, "connection:");
      if connection {
        c := Strncpy(start + 12, len - 12, 20);
        if c.None? { return false; }
        fields := fields.(conn := c);
      }
    }

    /** One turn of the head loop: whether the line looked at ends the head, or None when the parser
        leaves the language's rules. */
    method HeadLine() returns (last: Option<bool>)
      requires Valid()
      modifies this`query_start_index, this`fields
      ensures Valid()
      ensures var whole := ParseHead(querybuf[..query_end_index], old(query_start_index), old(fields));
              match last
              case None => whole == Undefined
              case Some(true) => whole == Parsed(query_start_index, fields)
              case Some(false) =>
                && old(query_start_index) < query_start_index
                && whole == ParseHead(querybuf[..query_end_index], query_start_index, fields)
    {
      hide Find, HeaderLine;
      var end_line := Strpbrk(query_start_index, "\n");
      if end_line.None? {
        return None;
      }
      var len := end_line.value - query_start_index;
      if len == 1 {
        query_start_index := query_start_index + (len + 1);
        return Some(true);
      }
      var ok := CopyHeader(len);
      if !ok {
        return None;
      }
      query_start_index := query_start_index + (len + 1);
      last := Some(false);
    }

    /** process_head: false when the parser leaves the language's rules. The cursor strictly advances,
        within the received bytes, on every turn. */
    method ProcessHead() returns (ok: bool)
      requires Valid()
      modifies this`query_start_index, this`fields
      ensures Valid()
      ensures match ParseHead(querybuf[..query_end_index], old(query_start_index), old(fields))
              case Parsed(start, f) => ok && query_start_index == start && fields == f
              case Undefined => !ok
              case Incomplete(_, _) => false
    {
      hide ParseHead;
      while true
        invariant Valid() && old(query_start_index) <= query_start_index
        invariant ParseHead(querybuf[..query_end_index], query_start_index, fields)
               == ParseHead(querybuf[..query_end_index], old(query_start_index), old(fields))
        decreases query_end_index - query_start_index
      {
        var last := HeadLine();
        if last != Some(false) {
          return last == Some(true);
        }
      }
    }

    /** process_body: the body is not looked at, the buffer is emptied, and the connection turns to
        sending. */
    method ProcessBody()
      modifies this`query_start_index, this`query_end_index, this`state, this`readHandler, this`writeHandler
      requires Valid()
      ensures Valid() && S() == old(S()).(start := 0, data := "", stage := Spec.SEND_DATA,
                                          onWrite := Spec.SendResponse, onRead := Spec.EmptyHandler)
      ensures query_start_index == 0 == query_end_index && state == Spec.SEND_DATA
      ensures readHandler == Spec.EmptyHandler && writeHandler == Spec.SendResponse
    {
      query_start_index, query_end_index := 0, 0;
      state := Spec.SEND_DATA;
      writeHandler := Spec.SendResponse;
      readHandler := Spec.EmptyHandler;
    }

    /** The connection is as the parse says. After an undefined step its state means nothing. */
    twostate predicate Became(p: Parse)
      requires old(Valid())
      reads this, querybuf
    {
      && Valid()
      && (undefined <==> Spec.Finish(old(S()), p).undefined)
      && (!undefined ==> S() == Spec.Finish(old(S()), p))
    }

    /** The third part of process_request_line. */
    method ProcessVersion()
      requires Valid() && !undefined
      modifies this`query_start_index, this`query_end_index, this`fields, this`state, this`readHandler,
               this`writeHandler, this`undefined
      ensures Became(ParseVersion(old(S()).data, old(query_start_index), old(fields)))
    {
      hide Find, ParseHead;
      var ptr := Strpbrk(0, "\n");
      if ptr.None? {
        return;
      }
      var len: int := ptr.value - query_start_index;
      var c := Strncpy(query_start_index, len, 16);
      if c.None? {
        undefined := true;
        return;
      }
      fields, query_start_index := fields.(version := c), query_start_index + (len + 1);
      var ok := ProcessHead();
      if !ok {
        undefined := true;
        return;
      }
      ProcessBody();
    }

    /** The second part, going on to the third. */
    method ProcessUri()
      requires Valid() && !undefined
      modifies this`query_start_index, this`query_end_index, this`fields, this`state, this`readHandler,
               this`writeHandler, this`undefined
      ensures Became(ParseUri(old(S()).data, old(query_start_index), old(fields)))
    {
      hide Find, Copy, ParseVersion;
      var ptr := Strpbrk(query_start_index, " \t");
      if ptr.None? {
        return;
      }
      var len := ptr.value - query_start_index;
      var c := Strncpy(query_start_index, len, 128);
      if c.None? {
        undefined := true;
        return;
      }
      fields, query_start_index := fields.(uri := c), query_start_index + (len + 1);
      ProcessVersion();
    }

    /** process_request_line, with what it goes on to. */
    method ProcessRequestLine()
      requires Valid() && !undefined
      modifies this`query_start_index, this`query_end_index, this`fields, this`state, this`readHandler,
               this`writeHandler, this`undefined
      ensures Became(ParseRequestLine(old(S()).data, old(query_start_index), old(fields)))
    {
      hide Find, Copy, ParseUri;
      var ptr := Strpbrk(query_start_index, " \t");
      if ptr.None? {
        return;
      }
      var len := ptr.value - query_start_index;
      var c := Strncpy(query_start_index, len, 8);
      if c.None? {
        undefined := true;
        return;
      }
      fields, query_start_index := fields.(requestMethod := c), query_start_index + (len + 1);
      ProcessUri();
    }

    /** read_request: when the peer closes, the caller deregisters and frees the connection. */
    method ReadRequest(rs: seq<Spec.Recv>) returns (closed: bool)
      requires Valid() && !undefined && Spec.Offered(S(), rs)
      modifies this, querybuf
      ensures Valid() && (closed <==> Spec.PeerCloses(rs))
      ensures closed ==> S() == Spec.Fill(old(S()), rs)
      ensures !closed ==> (undefined <==> Spec.Read(old(S()), rs).undefined)
      ensures !closed && !undefined ==> S() == Spec.Read(old(S()), rs)
    {
      closed := ReceiveAll(rs);
      Spec.FillKeeps(old(S()), rs, |rs| - 1);
      if !closed {
        ProcessRequestLine();
      }
    }
  }
}
